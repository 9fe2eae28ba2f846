/** The AROW classifier: weights with a covariance each, margins and the training step
    (jubatus/core/classifier/arow.cpp, jubatus/core/classifier/linear_classifier.cpp). */
module Arow {
  import opened Options

  /** Feature and label names; only their equality matters. */
  type Feature = nat
  type Label = nat

  datatype Val = Val(weight: real, covar: real)

  const FRESH := Val(0.0, 1.0)  // what the code assumes for an absent entry

  type Row = map<Label, Val>
  type Table = map<Feature, Row>

  datatype Coord = Coord(feature: Feature, value: real)
  type Fv = seq<Coord>

  function RowAt(t: Table, f: Feature): Row {
    if f in t then t[f] else map[]
  }

  function InRow(row: Row, l: Label): Val {
    if l in row then row[l] else FRESH
  }

  function ValAt(t: Table, f: Feature, l: Label): Val {
    InRow(RowAt(t, f), l)
  }

  function CovarAt(t: Table, f: Feature, l: Option<Label>): real {
    if l.None? then 1.0 else ValAt(t, f, l.value).covar
  }

  // ----- the arithmetic of one coordinate

  function Product(w: real, x: real): real {
    w * x
  }

  function Spread(c: real, x: real): real {
    c * x * x
  }

  function Shift(alpha: real, c: real, x: real): real {
    alpha * c * x
  }

  function Shrink(beta: real, c: real, x: real): real {
    beta * c * c * x * x
  }

  function Raised(v: Val, alpha: real, beta: real, x: real): Val {
    Val(v.weight + Shift(alpha, v.covar, x), v.covar - Shrink(beta, v.covar, x))
  }

  function Lowered(v: Val, alpha: real, beta: real, x: real): Val {
    Val(v.weight - Shift(alpha, v.covar, x), v.covar - Shrink(beta, v.covar, x))
  }

  lemma LessTimes(a: real, x: real, y: real)
    requires a > 0.0 && x < y
    ensures a * x < a * y
  {
    assert a * (y - x) > 0.0;
  }

  lemma SpreadPositive(c: real, x: real)
    requires c >= 0.0
    ensures Spread(c, x) >= 0.0
  {
    assert x * x >= 0.0;
    assert c * (x * x) >= 0.0;
  }

  lemma SpreadGrows(b: real, c: real, x: real)
    requires b <= c
    ensures Spread(b, x) <= Spread(c, x)
  {
    assert x * x >= 0.0;
    assert (c - b) * (x * x) >= 0.0;
  }

  lemma Fraction(c: real, load: real)
    requires c > 0.0 && 0.0 <= load < 1.0
    ensures 0.0 <= c * load < c
  {
    LessTimes(c, load, 1.0);
    assert c * load >= 0.0;
  }

  /** Below this limit a covariance stays positive and does not grow. */
  lemma ShrinkBounds(beta: real, c: real, x: real, load: real)
    requires c > 0.0 && load == Product(beta, Spread(c, x)) && 0.0 <= load < 1.0
    ensures 0.0 <= Shrink(beta, c, x) < c
  {
    Fraction(c, load);
    assert Shrink(beta, c, x) == c * load;
  }

  lemma BetaLimit(beta: real, d: real, s: real)
    requires 0.0 <= s < d && beta == 1.0 / d
    ensures beta > 0.0 && 0.0 <= Product(beta, s) < 1.0
  {
    assert beta > 0.0 && beta * d == 1.0;
    LessTimes(beta, s, d);
  }

  /** The step brings the distance to margin 1 down by the factor 1 + C * variance. */
  lemma StepSize(margin: real, variance: real, c: real)
    requires c > 0.0 && variance >= 0.0
    ensures var beta := 1.0 / (variance + 1.0 / c);
            1.0 + c * variance > 0.0
            && 1.0 - (margin + (1.0 - margin) * beta * variance) == (1.0 - margin) / (1.0 + c * variance)
  {
    var i := 1.0 / c;
    var d := variance + i;
    var beta := 1.0 / d;
    assert i > 0.0 && c * i == 1.0;
    assert c * variance >= 0.0;
    assert beta * d == 1.0;
    var e := 1.0 + c * variance;
    assert c * d == e;
    assert beta * e == c by { assert beta * (c * d) == c * (beta * d); }
    var g := 1.0 - margin;
    assert g - g * beta * variance == g * (1.0 - beta * variance);
    assert (1.0 - beta * variance) * e == 1.0 by {
      assert (beta * variance) * e == variance * c by { assert (beta * variance) * e == variance * (beta * e); }
    }
    assert (g * (1.0 - beta * variance)) * e == g;
  }

  // ----- scores, variance and the update

  function Score(t: Table, fv: Fv, l: Label): real {
    if fv == [] then 0.0
    else var c := fv[|fv| - 1]; Score(t, fv[..|fv| - 1], l) + Product(ValAt(t, c.feature, l).weight, c.value)
  }

  function Variance(t: Table, fv: Fv, l: Label, rival: Option<Label>): real {
    if fv == [] then 0.0
    else
      var c := fv[|fv| - 1];
      Variance(t, fv[..|fv| - 1], l, rival)
      + Spread(ValAt(t, c.feature, l).covar + CovarAt(t, c.feature, rival), c.value)
  }

  function Margin(t: Table, fv: Fv, l: Label, rival: Option<Label>): real {
    Score(t, fv, l) - if rival.None? then 0.0 else Score(t, fv, rival.value)
  }

  /** Both entries are read before either is written. */
  function UpdateRow(row: Row, x: real, alpha: real, beta: real, l: Label, rival: Option<Label>): Row {
    var up := row[l := Raised(InRow(row, l), alpha, beta, x)];
    if rival.None? then up else up[rival.value := Lowered(InRow(row, rival.value), alpha, beta, x)]
  }

  function Update(t: Table, fv: Fv, alpha: real, beta: real, l: Label, rival: Option<Label>): Table {
    if fv == [] then t
    else
      var c, u := fv[|fv| - 1], Update(t, fv[..|fv| - 1], alpha, beta, l, rival);
      u[c.feature := UpdateRow(RowAt(u, c.feature), c.value, alpha, beta, l, rival)]
  }

  datatype Scored = Scored(name: Label, score: real)

  function Scores(t: Table, labels: seq<Label>, fv: Fv): seq<Scored> {
    seq(|labels|, i requires 0 <= i < |labels| => Scored(labels[i], Score(t, fv, labels[i])))
  }

  /** The first of the other labels with the largest score. */
  function Rival(scores: seq<Scored>, l: Label): Option<Scored> {
    if scores == [] then None
    else
      var s, best := scores[|scores| - 1], Rival(scores[..|scores| - 1], l);
      if s.name != l && (best.None? || s.score > best.value.score) then Some(s) else best
  }

  function LabelOf(s: Option<Scored>): Option<Label> {
    if s.None? then None else Some(s.value.name)
  }

  // ----- the model and its training

  datatype Model = Model(labels: seq<Label>, table: Table)

  function RivalOf(m: Model, fv: Fv, l: Label): Option<Label> {
    LabelOf(Rival(Scores(m.table, m.labels, fv), l))
  }

  function Registered(labels: seq<Label>, l: Label): seq<Label> {
    if l in labels then labels else labels + [l]
  }

  function Beta(variance: real, c: real): real
    requires c > 0.0 && variance >= 0.0
  {
    1.0 / (variance + 1.0 / c)
  }

  ghost predicate InUnit(t: Table) {
    forall f, l :: 0.0 < ValAt(t, f, l).covar <= 1.0
  }

  ghost predicate Shrunk(from: Table, to: Table) {
    forall f, l :: ValAt(to, f, l).covar <= ValAt(from, f, l).covar
  }

  // ----- covariances

  lemma {:induction false} VarianceCovers(t: Table, fv: Fv, l: Label, rival: Option<Label>, i: nat)
    requires InUnit(t)
    ensures Variance(t, fv, l, rival) >= 0.0
    ensures i < |fv| ==> Spread(ValAt(t, fv[i].feature, l).covar, fv[i].value) <= Variance(t, fv, l, rival)
    ensures i < |fv| ==> Spread(CovarAt(t, fv[i].feature, rival), fv[i].value) <= Variance(t, fv, l, rival)
  {
    if fv != [] {
      var n := |fv| - 1;
      VarianceCovers(t, fv[..n], l, rival, i);
      var c, d, x := ValAt(t, fv[n].feature, l).covar, CovarAt(t, fv[n].feature, rival), fv[n].value;
      assert c > 0.0 && d > 0.0;
      SpreadPositive(c + d, x);
      SpreadGrows(c, c + d, x);
      SpreadGrows(d, c + d, x);
    }
  }

  /** The covariances that one coordinate touches can stand their decrease. */
  ghost predicate Gentle(t: Table, c: Coord, beta: real, l: Label, rival: Option<Label>) {
    && Product(beta, Spread(ValAt(t, c.feature, l).covar, c.value)) < 1.0
    && Product(beta, Spread(CovarAt(t, c.feature, rival), c.value)) < 1.0
  }

  ghost predicate GentleAll(t: Table, fv: Fv, beta: real, l: Label, rival: Option<Label>) {
    beta > 0.0 && forall i :: 0 <= i < |fv| ==> Gentle(t, fv[i], beta, l, rival)
  }

  lemma BetaIsGentle(t: Table, fv: Fv, c: real, l: Label, rival: Option<Label>)
    requires InUnit(t) && c > 0.0
    ensures Variance(t, fv, l, rival) >= 0.0
    ensures GentleAll(t, fv, Beta(Variance(t, fv, l, rival), c), l, rival)
  {
    var v := Variance(t, fv, l, rival);
    VarianceCovers(t, fv, l, rival, |fv|);
    var d := v + 1.0 / c;
    BetaLimit(Beta(v, c), d, 0.0);
    forall i | 0 <= i < |fv| ensures Gentle(t, fv[i], Beta(v, c), l, rival) {
      VarianceCovers(t, fv, l, rival, i);
      var a, b := ValAt(t, fv[i].feature, l).covar, CovarAt(t, fv[i].feature, rival);
      SpreadPositive(a, fv[i].value);
      SpreadPositive(b, fv[i].value);
      BetaLimit(Beta(v, c), d, Spread(a, fv[i].value));
      BetaLimit(Beta(v, c), d, Spread(b, fv[i].value));
    }
  }

  lemma ProductGrows(beta: real, a: real, b: real)
    requires beta > 0.0 && 0.0 <= a <= b
    ensures 0.0 <= Product(beta, a) <= Product(beta, b)
  {
    assert beta * (b - a) >= 0.0;
    assert beta * a >= 0.0;
  }

  lemma CovarFalls(beta: real, c: real, limit: real, x: real)
    requires beta > 0.0 && 0.0 < c <= limit && Product(beta, Spread(limit, x)) < 1.0
    ensures 0.0 < c - Shrink(beta, c, x) <= c
  {
    SpreadPositive(c, x);
    SpreadGrows(c, limit, x);
    ProductGrows(beta, Spread(c, x), Spread(limit, x));
    ShrinkBounds(beta, c, x, Product(beta, Spread(c, x)));
  }

  lemma RowAfter(row: Row, x: real, alpha: real, beta: real, l: Label, rival: Option<Label>, k: Label)
    requires rival != Some(l)
    ensures InRow(UpdateRow(row, x, alpha, beta, l, rival), k)
         == if k == l then Raised(InRow(row, k), alpha, beta, x)
            else if rival == Some(k) then Lowered(InRow(row, k), alpha, beta, x)
            else InRow(row, k)
  {
  }

  lemma {:induction false} UpdateCovars(t: Table, fv: Fv, alpha: real, beta: real, l: Label, rival: Option<Label>,
                                        f: Feature, k: Label)
    requires InUnit(t) && rival != Some(l) && GentleAll(t, fv, beta, l, rival)
    ensures 0.0 < ValAt(Update(t, fv, alpha, beta, l, rival), f, k).covar <= ValAt(t, f, k).covar
  {
    if fv == [] {
      assert 0.0 < ValAt(t, f, k).covar;
    } else {
      var n := |fv| - 1;
      var c, u := fv[n], Update(t, fv[..n], alpha, beta, l, rival);
      UpdateCovars(t, fv[..n], alpha, beta, l, rival, f, k);
      if f == c.feature {
        RowAfter(RowAt(u, f), c.value, alpha, beta, l, rival, k);
        assert Gentle(t, c, beta, l, rival);
        if k == l || rival == Some(k) {
          CovarFalls(beta, ValAt(u, f, k).covar, ValAt(t, f, k).covar, c.value);
        }
      }
    }
  }

  // ----- training runs

  function Stepped(t: Table, fv: Fv, margin: real, beta: real, l: Label, rival: Option<Label>): Table {
    Update(t, fv, Product(1.0 - margin, beta), beta, l, rival)
  }

  /** One call of train with regularization weight c. */
  function Train(m: Model, c: real, fv: Fv, l: Label): Model
    requires c > 0.0 && InUnit(m.table)
  {
    var rival := RivalOf(m, fv, l);
    var margin, variance := Margin(m.table, fv, l, rival), Variance(m.table, fv, l, rival);
    if margin >= 1.0 then m.(labels := Registered(m.labels, l))
    else
      VarianceCovers(m.table, fv, l, rival, |fv|);
      var beta := Beta(variance, c);
      Model(if fv == [] then m.labels else Registered(m.labels, l),
            Stepped(m.table, fv, margin, beta, l, rival))
  }

  lemma {:induction false} RivalIsOther(scores: seq<Scored>, l: Label)
    ensures Rival(scores, l).None? <==> forall s :: s in scores ==> s.name == l
    ensures Rival(scores, l).Some? ==> Rival(scores, l).value in scores && Rival(scores, l).value.name != l
                                       && forall s :: s in scores && s.name != l ==>
                                           s.score <= Rival(scores, l).value.score
  {
    if scores != [] {
      var n := |scores| - 1;
      RivalIsOther(scores[..n], l);
      assert scores == scores[..n] + [scores[n]];
    }
  }

  /** A training step leaves every covariance in (0, 1] and raises none, repeated features or not. */
  lemma TrainCovars(m: Model, c: real, fv: Fv, l: Label)
    requires c > 0.0 && InUnit(m.table)
    ensures InUnit(Train(m, c, fv, l).table) && Shrunk(m.table, Train(m, c, fv, l).table)
  {
    var rival := RivalOf(m, fv, l);
    RivalIsOther(Scores(m.table, m.labels, fv), l);
    var margin, variance := Margin(m.table, fv, l, rival), Variance(m.table, fv, l, rival);
    if margin < 1.0 {
      BetaIsGentle(m.table, fv, c, l, rival);
      var beta := Beta(variance, c);
      forall f, k ensures 0.0 < ValAt(Train(m, c, fv, l).table, f, k).covar <= ValAt(m.table, f, k).covar <= 1.0 {
        UpdateCovars(m.table, fv, Product(1.0 - margin, beta), beta, l, rival, f, k);
      }
    }
  }

  /** At most this label is added, and only if it is new. */
  ghost predicate Registers(before: seq<Label>, after: seq<Label>, l: Label) {
    after == before || (l !in before && after == before + [l])
  }

  /** What a training step does to the labels. */
  lemma TrainLabels(m: Model, c: real, fv: Fv, l: Label)
    requires c > 0.0 && InUnit(m.table)
    ensures Registers(m.labels, Train(m, c, fv, l).labels, l)
    ensures fv != [] ==> l in Train(m, c, fv, l).labels
  {
  }

  datatype Example = Example(fv: Fv, name: Label)

  function Run(m: Model, c: real, examples: seq<Example>): Model
    requires c > 0.0 && InUnit(m.table)
    decreases examples
  {
    if examples == [] then m
    else
      TrainCovars(m, c, examples[0].fv, examples[0].name);
      Run(Train(m, c, examples[0].fv, examples[0].name), c, examples[1..])
  }

  /** Over every training run all covariances stay in (0, 1] and none ever rises. */
  lemma {:induction false} RunCovars(m: Model, c: real, examples: seq<Example>)
    requires c > 0.0 && InUnit(m.table)
    ensures InUnit(Run(m, c, examples).table) && Shrunk(m.table, Run(m, c, examples).table)
    decreases examples
  {
    if examples != [] {
      TrainCovars(m, c, examples[0].fv, examples[0].name);
      var next := Train(m, c, examples[0].fv, examples[0].name);
      RunCovars(next, c, examples[1..]);
      ShrunkTwice(m.table, next.table, Run(m, c, examples).table);
    }
  }

  lemma ShrunkTwice(a: Table, b: Table, c: Table)
    requires Shrunk(a, b) && Shrunk(b, c)
    ensures Shrunk(a, c)
  {
    forall f, l ensures ValAt(c, f, l).covar <= ValAt(a, f, l).covar {
      assert ValAt(b, f, l).covar <= ValAt(a, f, l).covar;
    }
  }
}
