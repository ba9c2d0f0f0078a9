/** A worked session: two ticks, each with one face, summarised. */
module Scenario {
  import opened Expressions
  import opened Tables
  import opened Summary
  import opened Session

  /** The table after frames {happy: 0.6} and {happy: 0.4, sad: 0.5}. */
  const Example: Table := Table(["happy", "sad"], map["happy" := 1.0, "sad" := 0.5])

  lemma FirstTick()
    ensures SessionTable([[Detection([("happy", 0.6)])]]) == Table(["happy"], map["happy" := 0.6])
  {
    var ticks: seq<seq<Detection>> := [[Detection([("happy", 0.6)])]];
    var f: Scores := [("happy", 0.6)];
    assert ticks[..0] == [] && f[..0] == [];
    assert AddFrame(Empty, f) == AddScore(Empty, "happy", 0.6);
  }

  lemma SecondTick()
    ensures AddFrame(Table(["happy"], map["happy" := 0.6]), [("happy", 0.4), ("sad", 0.5)]) == Example
  {
    var t1 := Table(["happy"], map["happy" := 0.6]);
    var f: Scores := [("happy", 0.4), ("sad", 0.5)];
    assert "happy" != "sad" by { assert "happy"[0] != "sad"[0]; }
    assert f[..1] == [("happy", 0.4)] && f[..1][..0] == [];
    var t2 := AddScore(t1, "happy", 0.4);
    assert AddFrame(t1, f[..1]) == t2;
    assert t2 == Table(["happy"], map["happy" := 1.0]);
    assert AddScore(t2, "sad", 0.5) == Example;
  }

  /** The two frames leave happy at 1.0 and sad at 0.5, so the summary
      reads happy 2/3 and sad 1/3 of 100. */
  lemma TwoFrameSession()
    ensures var ticks := [[Detection([("happy", 0.6)])], [Detection([("happy", 0.4), ("sad", 0.5)])]];
      && SessionTable(ticks) == Example
      && SummaryOf(SessionTable(ticks)) == [("happy", Percent(200.0 / 3.0)), ("sad", Percent(100.0 / 3.0))]
  {
    var ticks: seq<seq<Detection>> := [[Detection([("happy", 0.6)])], [Detection([("happy", 0.4), ("sad", 0.5)])]];
    assert ticks[..1] == [[Detection([("happy", 0.6)])]];
    FirstTick();
    SecondTick();
    assert SessionTable(ticks) == Example;
    assert "happy" != "sad" by { assert "happy"[0] != "sad"[0]; }
    assert Example.order[..1] == ["happy"] && Example.order[..1][..0] == [];
    assert GrandTotal(Example) == 1.5;
  }
}
