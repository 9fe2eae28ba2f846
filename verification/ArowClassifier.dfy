/** The code of the AROW classifier over its weight table, proved against the functions of Arow
    (jubatus/core/classifier/arow.cpp, jubatus/core/classifier/linear_classifier.cpp,
    jubatus/core/storage/local_storage.cpp). */
module ArowClassifier {
  import opened Options
  import opened Arow

  /** Every label with an entry in the table is registered. */
  ghost predicate Known(labels: seq<Label>, t: Table) {
    forall f, l :: l in RowAt(t, f) ==> l in labels
  }

  function SumAt(sums: map<Label, real>, l: Label): real {
    if l in sums then sums[l] else 0.0
  }

  lemma NoWeight(x: real)
    ensures Product(0.0, x) == 0.0
  {
  }

  lemma {:induction false} UnknownScore(labels: seq<Label>, t: Table, fv: Fv, l: Label)
    requires Known(labels, t) && l !in labels
    ensures Score(t, fv, l) == 0.0
  {
    if fv != [] {
      UnknownScore(labels, t, fv[..|fv| - 1], l);
      NoWeight(fv[|fv| - 1].value);
    }
  }

  lemma ScoreStep(t: Table, fv: Fv, i: nat, l: Label)
    requires i < |fv|
    ensures Score(t, fv[..i + 1], l) == Score(t, fv[..i], l) + Product(ValAt(t, fv[i].feature, l).weight, fv[i].value)
  {
    assert fv[..i + 1][..i] == fv[..i];
  }

  /** local_storage::inp, inner loop: one row's weights times the value are added to the labels' sums. */
  method AddRow(sums: map<Label, real>, row: Row, x: real) returns (out: map<Label, real>)
    ensures forall l :: SumAt(out, l) == SumAt(sums, l) + Product(InRow(row, l).weight, x)
  {
    out := sums;
    var todo := row.Keys;
    while todo != {}
      invariant todo <= row.Keys
      invariant forall l :: SumAt(out, l)
                         == SumAt(sums, l) + if l in row && l !in todo then Product(row[l].weight, x) else 0.0
      decreases todo
    {
      var l :| l in todo;
      out := out[l := SumAt(out, l) + Product(row[l].weight, x)];
      todo := todo - {l};
    }
    NoWeight(x);
  }

  /** local_storage::inp */
  method Inp(t: Table, labels: seq<Label>, fv: Fv) returns (scores: seq<Scored>)
    ensures scores == Scores(t, labels, fv)
  {
    var sums: map<Label, real> := map[];
    for i := 0 to |fv|
      invariant forall l :: SumAt(sums, l) == Score(t, fv[..i], l)
    {
      forall l { ScoreStep(t, fv, i, l); }
      if fv[i].feature in t {
        sums := AddRow(sums, t[fv[i].feature], fv[i].value);
      } else {
        NoWeight(fv[i].value);
      }
    }
    assert fv[..|fv|] == fv;
    scores := [];
    for i := 0 to |labels|
      invariant scores == Scores(t, labels, fv)[..i]
    {
      scores := scores + [Scored(labels[i], SumAt(sums, labels[i]))];
    }
  }

  /** get_largest_incorrect_label */
  method LargestIncorrect(scores: seq<Scored>, l: Label) returns (best: Option<Scored>)
    ensures best == Rival(scores, l)
  {
    best := None;
    for i := 0 to |scores|
      invariant best == Rival(scores[..i], l)
    {
      assert scores[..i + 1][..i] == scores[..i];
      if scores[i].name == l {
        continue;
      }
      if best.None? || scores[i].score > best.value.score {
        best := Some(scores[i]);
      }
    }
    assert scores[..|scores|] == scores;
  }

  /** calc_margin: the rival's score minus the label's own. */
  method CalcMargin(t: Table, labels: seq<Label>, fv: Fv, l: Label) returns (margin: real, rival: Option<Label>)
    requires Known(labels, t)
    ensures rival == RivalOf(Model(labels, t), fv, l) && margin == -Margin(t, fv, l, rival)
  {
    var scores := Inp(t, labels, fv);
    var best := LargestIncorrect(scores, l);
    rival := LabelOf(best);
    RivalIsOther(scores, l);
    var correct, incorrect := 0.0, 0.0;
    for i := 0 to |scores|
      invariant correct == if l in labels[..i] then Score(t, fv, l) else 0.0
      invariant incorrect == if best.Some? && best.value.name in labels[..i] then Score(t, fv, best.value.name) else 0.0
    {
      assert labels[..i + 1] == labels[..i] + [labels[i]];
      if scores[i].name == l {
        correct := scores[i].score;
      } else if best.Some? && scores[i].name == best.value.name {
        incorrect := scores[i].score;
      }
    }
    assert labels[..|scores|] == labels;
    if l !in labels {
      UnknownScore(labels, t, fv, l);
    }
    margin := incorrect - correct;
  }

  /** ClassifierUtil::get_two: two entries of a row, or what an absent entry stands for. */
  method GetTwo(row: Row, l: Label, rival: Option<Label>) returns (u: Val, v: Val)
    requires rival != Some(l)
    ensures u == InRow(row, l) && v == if rival.None? then FRESH else InRow(row, rival.value)
  {
    u, v := FRESH, FRESH;
    var todo := row.Keys;
    while todo != {}
      invariant todo <= row.Keys
      invariant u == if l in todo then FRESH else InRow(row, l)
      invariant v == if rival.None? || rival.value in todo then FRESH else InRow(row, rival.value)
      decreases todo
    {
      var k :| k in todo;
      if k == l {
        u := row[k];
      } else if rival == Some(k) {
        v := row[k];
      }
      todo := todo - {k};
    }
  }

  lemma VarianceStep(t: Table, fv: Fv, i: nat, l: Label, rival: Option<Label>)
    requires i < |fv|
    ensures Variance(t, fv[..i + 1], l, rival)
         == Variance(t, fv[..i], l, rival)
            + Spread(ValAt(t, fv[i].feature, l).covar + CovarAt(t, fv[i].feature, rival), fv[i].value)
  {
    assert fv[..i + 1][..i] == fv[..i];
  }

  /** The loop of calc_margin_and_variance. */
  method CalcVariance(t: Table, fv: Fv, l: Label, rival: Option<Label>) returns (variance: real)
    requires rival != Some(l)
    ensures variance == Variance(t, fv, l, rival)
  {
    variance := 0.0;
    for i := 0 to |fv|
      invariant variance == Variance(t, fv[..i], l, rival)
    {
      var u, v := GetTwo(RowAt(t, fv[i].feature), l, rival);
      VarianceStep(t, fv, i, l, rival);
      variance := variance + Spread(u.covar + v.covar, fv[i].value);
    }
    assert fv[..|fv|] == fv;
  }

  lemma UpdateStep(t: Table, fv: Fv, i: nat, alpha: real, beta: real, l: Label, rival: Option<Label>)
    requires i < |fv|
    ensures var u := Update(t, fv[..i], alpha, beta, l, rival);
            Update(t, fv[..i + 1], alpha, beta, l, rival)
            == u[fv[i].feature := UpdateRow(RowAt(u, fv[i].feature), fv[i].value, alpha, beta, l, rival)]
  {
    assert fv[..i + 1][..i] == fv[..i];
  }

  lemma {:induction false} UpdateKnown(labels: seq<Label>, t: Table, fv: Fv, alpha: real, beta: real, l: Label,
                                       rival: Option<Label>)
    requires Known(labels, t) && (fv != [] ==> l in labels) && (rival.Some? ==> rival.value in labels)
    ensures Known(labels, Update(t, fv, alpha, beta, l, rival))
  {
    if fv != [] {
      var u, f := Update(t, fv[..|fv| - 1], alpha, beta, l, rival), fv[|fv| - 1].feature;
      UpdateKnown(labels, t, fv[..|fv| - 1], alpha, beta, l, rival);
      var after := Update(t, fv, alpha, beta, l, rival);
      forall g, k | k in RowAt(after, g) ensures k in labels {
        assert k in RowAt(u, g) || (g == f && (k == l || rival == Some(k)));
      }
    }
  }

  class Classifier {
    const c: real
    var labels: seq<Label>
    var table: Table

    ghost predicate Valid()
      reads this
    {
      c > 0.0 && InUnit(table) && Known(labels, table)
    }

    ghost function State(): Model
      reads this
    {
      Model(labels, table)
    }

    constructor (regularizationWeight: real)
      requires regularizationWeight > 0.0
      ensures Valid() && c == regularizationWeight && State() == Model([], map[])
    {
      c := regularizationWeight;
      labels, table := [], map[];
    }

    /** set2_nolock on two entries of a feature, which registers their labels. */
    method SetTwo(f: Feature, l: Label, u: Val, rival: Option<Label>, v: Val)
      modifies this
      ensures var up := RowAt(old(table), f)[l := u];
              table == old(table)[f := if rival.None? then up else up[rival.value := v]]
      ensures labels == var up := Registered(old(labels), l); if rival.None? then up else Registered(up, rival.value)
    {
      table := table[f := RowAt(table, f)[l := u]];
      if l !in labels {
        labels := labels + [l];
      }
      if rival.Some? {
        table := table[f := RowAt(table, f)[rival.value := v]];
        if rival.value !in labels {
          labels := labels + [rival.value];
        }
      }
    }

    /** arow::update */
    method UpdateAll(fv: Fv, alpha: real, beta: real, l: Label, rival: Option<Label>)
      requires rival != Some(l) && (rival.Some? ==> rival.value in labels)
      modifies this
      ensures table == Update(old(table), fv, alpha, beta, l, rival)
      ensures labels == if fv == [] then old(labels) else Registered(old(labels), l)
    {
      for i := 0 to |fv|
        invariant table == Update(old(table), fv[..i], alpha, beta, l, rival)
        invariant labels == if i == 0 then old(labels) else Registered(old(labels), l)
      {
        var x := fv[i].value;
        var u, v := GetTwo(RowAt(table, fv[i].feature), l, rival);
        UpdateStep(old(table), fv, i, alpha, beta, l, rival);
        SetTwo(fv[i].feature, l, Raised(u, alpha, beta, x), rival, Lowered(v, alpha, beta, x));
      }
      assert fv[..|fv|] == fv;
    }

    /** arow::train */
    method Learn(fv: Fv, l: Label)
      requires Valid()
      modifies this
      ensures Valid() && State() == Train(old(State()), c, fv, l)
    {
      var incorrect, rival := CalcMargin(table, labels, fv, l);
      var margin := -incorrect;
      RivalIsOther(Scores(table, labels, fv), l);
      var variance := CalcVariance(table, fv, l, rival);
      TrainCovars(State(), c, fv, l);
      if margin >= 1.0 {
        if l !in labels {
          labels := labels + [l];
        }
        return;
      }
      VarianceCovers(table, fv, l, rival, |fv|);
      var beta := Beta(variance, c);
      var alpha := Product(1.0 - margin, beta);
      UpdateAll(fv, alpha, beta, l, rival);
      UpdateKnown(labels, old(table), fv, alpha, beta, l, rival);
    }
  }
}
