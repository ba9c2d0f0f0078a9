/** The session summary shown when the camera stops: every accumulated label
    with its share of the grand total, `total / grandTotal * 100`, in the
    table's key order. The shares are taken of the total confidence mass,
    not of the number of frames. */
module Summary {
  import opened Expressions
  import opened Tables

  /** A label's share. When the grand total is zero the JS division yields
      NaN or an infinity, which the page prints as is: `Undefined`. */
  datatype Share = Percent(value: real) | Undefined

  type Line = (Label, Share)

  ghost predicate Covers(keys: seq<Label>, totals: map<Label, real>) {
    forall i :: 0 <= i < |keys| ==> keys[i] in totals
  }

  /** `Object.values(...).reduce((acc, val) => acc + val, 0)` over `keys`. */
  function SumOver(keys: seq<Label>, totals: map<Label, real>): real
    requires Covers(keys, totals)
  {
    if keys == [] then 0.0
    else SumOver(keys[..|keys| - 1], totals) + totals[keys[|keys| - 1]]
  }

  function GrandTotal(t: Table): real
    requires WellFormed(t)
  {
    SumOver(t.order, t.totals)
  }

  function ShareOf(total: real, grand: real): Share {
    if grand == 0.0 then Undefined else Percent(total / grand * 100.0)
  }

  /** The lines for `keys`, one per key, in the same order. */
  function LinesFor(keys: seq<Label>, totals: map<Label, real>, grand: real): (r: seq<Line>)
    requires Covers(keys, totals)
    ensures |r| == |keys|
    ensures forall i :: 0 <= i < |keys| ==> r[i].0 == keys[i] && r[i].1 == ShareOf(totals[keys[i]], grand)
  {
    if keys == [] then []
    else
      var n := |keys| - 1;
      LinesFor(keys[..n], totals, grand) + [(keys[n], ShareOf(totals[keys[n]], grand))]
  }

  /** What `displayCameraSummary` prints. */
  function SummaryOf(t: Table): seq<Line>
    requires WellFormed(t)
  {
    LinesFor(t.order, t.totals, GrandTotal(t))
  }

  /** The sum of the percentages of `lines` (an undefined share adds nothing). */
  function PercentSum(lines: seq<Line>): real {
    if lines == [] then 0.0
    else
      var last := lines[|lines| - 1].1;
      PercentSum(lines[..|lines| - 1]) + (if last.Percent? then last.value else 0.0)
  }

  ghost predicate NonNegativeTotals(t: Table) {
    forall l :: l in t.totals ==> t.totals[l] >= 0.0
  }

  /** A summary has one line per accumulated label, in key order; with a
      positive grand total each line is that label's exact share of it, and
      with a zero grand total every line is undefined. An empty table gives
      no lines at all. */
  lemma SummaryLines(t: Table)
    requires WellFormed(t)
    ensures var r := SummaryOf(t); var g := GrandTotal(t);
      && |r| == |t.order|
      && (t.order == [] ==> r == [] && g == 0.0)
      && (forall i :: 0 <= i < |r| ==> r[i].0 == t.order[i])
      && (g != 0.0 ==> forall i :: 0 <= i < |r| ==>
            r[i].1 == Percent(100.0 * t.totals[t.order[i]] / g))
      && (g == 0.0 ==> forall i :: 0 <= i < |r| ==> r[i].1 == Undefined)
  {
    var g := GrandTotal(t);
    if g != 0.0 {
      forall i | 0 <= i < |t.order|
        ensures t.totals[t.order[i]] / g * 100.0 == 100.0 * t.totals[t.order[i]] / g
      {
        var x := t.totals[t.order[i]];
        assert (x / g * 100.0) * g == (100.0 * x / g) * g;
      }
    }
  }

  lemma ShareAdditive(a: real, b: real, g: real)
    requires g != 0.0
    ensures a / g * 100.0 + b / g * 100.0 == (a + b) / g * 100.0
  {
    assert a / g + b / g == (a + b) / g;
  }

  lemma {:induction false} PercentSumOfLines(keys: seq<Label>, totals: map<Label, real>, grand: real)
    requires Covers(keys, totals) && grand != 0.0
    ensures PercentSum(LinesFor(keys, totals, grand)) == SumOver(keys, totals) / grand * 100.0
  {
    if keys != [] {
      var n := |keys| - 1;
      var lines := LinesFor(keys, totals, grand);
      var prefix := LinesFor(keys[..n], totals, grand);
      assert lines == prefix + [(keys[n], ShareOf(totals[keys[n]], grand))];
      assert lines[..n] == prefix;
      PercentSumOfLines(keys[..n], totals, grand);
      ShareAdditive(SumOver(keys[..n], totals), totals[keys[n]], grand);
    }
  }

  /** Whenever the grand total is not zero the percentages add up to 100. */
  lemma SummarySumsToHundred(t: Table)
    requires WellFormed(t) && GrandTotal(t) != 0.0
    ensures PercentSum(SummaryOf(t)) == 100.0
  {
    var g := GrandTotal(t);
    PercentSumOfLines(t.order, t.totals, g);
    assert g / g == 1.0;
  }

  lemma {:induction false} SumOverBounds(keys: seq<Label>, totals: map<Label, real>)
    requires Covers(keys, totals)
    requires forall i :: 0 <= i < |keys| ==> totals[keys[i]] >= 0.0
    ensures SumOver(keys, totals) >= 0.0
    ensures forall i :: 0 <= i < |keys| ==> totals[keys[i]] <= SumOver(keys, totals)
  {
    if keys != [] {
      SumOverBounds(keys[..|keys| - 1], totals);
      assert forall i :: 0 <= i < |keys| - 1 ==> keys[..|keys| - 1][i] == keys[i];
    }
  }

  /** With non-negative totals and something accumulated, every line is a
      percentage between 0 and 100. */
  lemma SummaryBounds(t: Table)
    requires WellFormed(t) && NonNegativeTotals(t) && GrandTotal(t) != 0.0
    ensures forall i :: 0 <= i < |SummaryOf(t)| ==>
      SummaryOf(t)[i].1.Percent? && 0.0 <= SummaryOf(t)[i].1.value <= 100.0
  {
    var g := GrandTotal(t);
    SumOverBounds(t.order, t.totals);
    forall i | 0 <= i < |t.order|
      ensures 0.0 <= t.totals[t.order[i]] / g * 100.0 <= 100.0
    {
      var x := t.totals[t.order[i]];
      assert 0.0 <= x <= g;
      assert x / g <= 1.0 by {
        assert x / g * g == x;
      }
    }
  }
}
