/** The page's module-level `expressionData` object and the code that
    changes it: the reset when analysis starts, the per-tick update with the
    first face's scores, and the walk over it that builds the summary. */
module Accumulator {
  import opened Expressions
  import opened Tables
  import opened Dominant
  import opened Summary
  import opened Session

  /** What one timer tick does besides updating the table: nothing when no
      face was found, a dominant-expression log line otherwise, or an
      exception when the first face has no scores to reduce over. */
  datatype TickOutcome = NoFace | Logged(dominant: Label) | Threw

  class ExpressionData {
    /** The object's keys in insertion (iteration) order. */
    var order: seq<Label>
    /** The running total of each key. */
    var totals: map<Label, real>

    function Snapshot(): Table
      reads this
    {
      Table(order, totals)
    }

    ghost predicate Valid()
      reads this
    {
      WellFormed(Snapshot())
    }

    /** `let expressionData = {}`. */
    constructor ()
      ensures Valid() && Snapshot() == Empty
    {
      order, totals := [], map[];
    }

    /** `expressionData = {}` when the camera starts: nothing of an earlier
        session survives. */
    method Reset()
      modifies this
      ensures Valid() && Snapshot() == Empty
    {
      order, totals := [], map[];
    }

    /** Assigns `v` to key `l`: a new key goes to the end of the order. */
    method Put(l: Label, v: real)
      requires Valid()
      modifies this
      ensures Valid()
      ensures order == if l in old(totals) then old(order) else old(order) + [l]
      ensures totals == old(totals)[l := v]
    {
      if l !in totals {
        order := order + [l];
      }
      totals := totals[l := v];
    }

    /** One iteration of `updateExpressionData`: a falsy total is set to
        0, then the confidence is added to it. */
    method AddEntry(l: Label, v: real)
      requires Valid()
      modifies this
      ensures Valid() && Snapshot() == AddScore(old(Snapshot()), l, v)
    {
      if l !in totals || totals[l] == 0.0 {
        Put(l, 0.0);
      }
      Put(l, totals[l] + v);
    }

    /** `updateExpressionData`: the face's entries in order, each through
        one iteration of the loop. */
    method Accumulate(scores: Scores)
      requires Valid()
      modifies this
      ensures Valid() && Snapshot() == AddFrame(old(Snapshot()), scores)
    {
      for i := 0 to |scores|
        invariant Valid()
        invariant Snapshot() == AddFrame(old(Snapshot()), scores[..i])
      {
        AddEntry(scores[i].0, scores[i].1);
        assert scores[..i + 1][..i] == scores[..i];
      }
      assert scores[..|scores|] == scores;
    }

    /** The body of the timer callback after drawing: when a face was found,
        log the first face's dominant expression, then add its scores. */
    method OnDetections(detections: seq<Detection>) returns (outcome: TickOutcome)
      requires Valid()
      modifies this
      ensures Valid() && Snapshot() == Tick(old(Snapshot()), detections)
      ensures |detections| == 0 ==> outcome == NoFace
      ensures |detections| > 0 && |detections[0].expressions| == 0 ==> outcome == Threw
      ensures Counted(detections) ==> outcome == Logged(DominantExpression(detections[0].expressions))
    {
      if |detections| == 0 {
        return NoFace;
      }
      var latest := detections[0].expressions;
      if |latest| == 0 {
        return Threw;
      }
      outcome := Logged(DominantExpression(latest));
      Accumulate(latest);
    }

    /** `displayCameraSummary`: the grand total, then one line per key in
        iteration order. Reads the table and changes nothing. */
    method Summarize() returns (lines: seq<Line>)
      requires Valid()
      ensures lines == SummaryOf(Snapshot())
    {
      var grand := GrandTotal(Snapshot());
      lines := [];
      for i := 0 to |order|
        invariant lines == LinesFor(order[..i], totals, grand)
      {
        assert order[..i + 1][..i] == order[..i];
        lines := lines + [(order[i], ShareOf(totals[order[i]], grand))];
      }
      assert order[..|order|] == order;
    }
  }
}
