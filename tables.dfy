/** The session's running totals (`expressionData` in the page script): a JS
    object from expression label to accumulated confidence. Its keys iterate
    in insertion order, so the table keeps that order beside the totals. */
module Tables {
  import opened Expressions

  datatype Table = Table(order: seq<Label>, totals: map<Label, real>)

  /** The table a session starts from: `{}`. */
  const Empty: Table := Table([], map[])

  /** `order` lists each key of `totals` exactly once. */
  ghost predicate WellFormed(t: Table) {
    && (forall i, j :: 0 <= i < j < |t.order| ==> t.order[i] != t.order[j])
    && (forall l :: l in t.totals <==> l in t.order)
  }

  /** The total a label stands at, reading an absent label as 0. */
  function Total(t: Table, l: Label): real {
    if l in t.totals then t.totals[l] else 0.0
  }

  /** One iteration of the update loop: a missing (or zero, hence falsy)
      total is first set to 0, then the confidence is added. Assigning a new
      key appends it to the iteration order; assigning an existing one keeps
      its place. */
  function AddScore(t: Table, l: Label, v: real): Table {
    var base := if l in t.totals && t.totals[l] != 0.0 then t.totals[l] else 0.0;
    Table(if l in t.totals then t.order else t.order + [l], t.totals[l := base + v])
  }

  /** The whole update loop over one face's scores, in entry order. */
  function AddFrame(t: Table, s: Scores): Table {
    if s == [] then t
    else
      var n := |s| - 1;
      AddScore(AddFrame(t, s[..n]), s[n].0, s[n].1)
  }

  lemma AddScoreWellFormed(t: Table, l: Label, v: real)
    requires WellFormed(t)
    ensures WellFormed(AddScore(t, l, v))
  {
    var r := AddScore(t, l, v);
    forall l' ensures l' in r.totals <==> l' in r.order {
      assert l' in r.order <==> l' in t.order || l' == l;
    }
  }

  /** After the loop every total has grown by what the face gave its label,
      the keys are the old keys plus the face's labels, the old key order is
      kept as a prefix, and the table stays well formed. */
  lemma {:induction false} AddFrameEffect(t: Table, s: Scores)
    requires WellFormed(t)
    ensures var r := AddFrame(t, s);
      && WellFormed(r)
      && (forall l :: Total(r, l) == Total(t, l) + ScoreFor(s, l))
      && r.totals.Keys == t.totals.Keys + LabelSet(s)
      && t.order <= r.order
  {
    if s != [] {
      var n := |s| - 1;
      var p := AddFrame(t, s[..n]);
      AddFrameEffect(t, s[..n]);
      AddScoreWellFormed(p, s[n].0, s[n].1);
    }
  }

  /** The per-label reading of one update for a real expressions object
      (distinct keys): a label of the face gains exactly its confidence,
      starting from 0 when it was new; every other label keeps its presence
      and its total. */
  lemma {:induction false} AccumulateFrame(t: Table, s: Scores)
    requires WellFormed(t) && DistinctLabels(s)
    ensures var r := AddFrame(t, s);
      && (forall i :: 0 <= i < |s| ==>
            s[i].0 in r.totals && r.totals[s[i].0] == Total(t, s[i].0) + s[i].1)
      && (forall l :: l !in LabelSet(s) ==>
            (l in r.totals <==> l in t.totals) && Total(r, l) == Total(t, l))
  {
    AddFrameEffect(t, s);
    forall i | 0 <= i < |s| ensures ScoreFor(s, s[i].0) == s[i].1 {
      ScoreForDistinct(s, i);
    }
    forall l | l !in LabelSet(s) ensures ScoreFor(s, l) == 0.0 {
      ScoreForAbsent(s, l);
    }
  }

  /** With non-negative confidences no running total ever decreases. */
  lemma {:induction false} AccumulateMonotone(t: Table, s: Scores)
    requires WellFormed(t) && NonNegative(s)
    ensures forall l :: Total(t, l) <= Total(AddFrame(t, s), l)
  {
    AddFrameEffect(t, s);
    forall l ensures ScoreFor(s, l) >= 0.0 {
      ScoreForNonNegative(s, l);
    }
  }
}
