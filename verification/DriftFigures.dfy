/** What each figure of a summary is, told by the cases and not by how it is computed. */
module DriftFigures {
  import opened Options
  import opened Sorting
  import opened Drift

  ghost predicate Usable(c: Case, key: string) {
    key in c.metrics && (c.metrics[key].Flag? || c.metrics[key].Whole? || c.metrics[key].Finite?)
  }

  /** The number recorded under the key; a flag counts as one or zero. */
  ghost function Reading(c: Case, key: string): real
    requires Usable(c, key)
  {
    var v := c.metrics[key];
    if v.Whole? then v.n as real else if v.Finite? then v.number else if v.flag then 1.0 else 0.0
  }

  /** The sum of the usable values of the first n cases, and how many there are. */
  ghost function SumOver(cases: seq<Case>, key: string, n: nat): real
    requires n <= |cases|
  {
    if n == 0 then 0.0
    else SumOver(cases, key, n - 1) + if Usable(cases[n - 1], key) then Reading(cases[n - 1], key) else 0.0
  }

  ghost function CountOver(cases: seq<Case>, key: string, n: nat): nat
    requires n <= |cases|
  {
    if n == 0 then 0 else CountOver(cases, key, n - 1) + if Usable(cases[n - 1], key) then 1 else 0
  }

  ghost function Passed(cases: seq<Case>, n: nat): nat
    requires n <= |cases|
  {
    if n == 0 then 0 else Passed(cases, n - 1) + if cases[n - 1].passed then 1 else 0
  }

  ghost function ScoreSum(cases: seq<Case>, n: nat): real
    requires n <= |cases|
  {
    if n == 0 then 0.0 else ScoreSum(cases, n - 1) + cases[n - 1].score
  }

  ghost predicate Averages(x: real, total: real, count: nat) { x * count as real == total }

  /** No value without observations, and otherwise the rounded quotient of total and count. */
  ghost predicate IsMean(round: Rounding, figure: Option<real>, total: real, count: nat) {
    if count == 0 then figure == None else exists x :: Averages(x, total, count) && figure == Some(round(x))
  }

  ghost function ScoresOf(cases: seq<Case>): seq<real> {
    seq(|cases|, i requires 0 <= i < |cases| => cases[i].score)
  }

  /** c is the fraction f of n, rounded up. */
  ghost predicate RoundsUp(f: real, n: nat, c: int) {
    c as real - 1.0 < f * n as real <= c as real
  }

  ghost predicate AtFraction(s: seq<real>, f: real, q: real) {
    && q in s
    && forall c: int :: RoundsUp(f, |s|, c) ==> NoMore(s, q) >= c && NoLess(s, q) >= |s| - c + 1
  }

  /** The rounded score with enough scores on either side for the fraction f. */
  ghost predicate IsQuantile(round: Rounding, figure: Option<real>, cases: seq<Case>, f: real) {
    exists q :: AtFraction(ScoresOf(cases), f, q) && figure == Some(round(q))
  }

  // ----- Sums over the first cases -----

  lemma {:induction false} SumAppend(a: seq<real>, b: seq<real>)
    ensures Sum(a + b) == Sum(a) + Sum(b)
  {
    if a == [] {
      assert a + b == b;
    } else {
      assert (a + b)[1..] == a[1..] + b;
      SumAppend(a[1..], b);
    }
  }

  lemma CollectOne<R>(f: Case -> Option<R>, c: Case)
    ensures Collect(f, [c]) == if f(c).Some? then [f(c).value] else []
  {
    assert [c][1..] == [];
  }

  lemma CollectNext<R>(f: Case -> Option<R>, cases: seq<Case>, n: nat)
    requires 0 < n <= |cases|
    ensures Collect(f, cases[..n]) ==
            Collect(f, cases[..n - 1]) + if f(cases[n - 1]).Some? then [f(cases[n - 1]).value] else []
  {
    assert cases[..n] == cases[..n - 1] + [cases[n - 1]];
    CollectAppend(f, cases[..n - 1], [cases[n - 1]]);
    CollectOne(f, cases[n - 1]);
  }

  lemma SumOne(x: real)
    ensures Sum([x]) == x && Sum([]) == 0.0
  {
    assert [x][1..] == [];
  }

  lemma {:induction false} ValuesSum(cases: seq<Case>, key: string, n: nat)
    requires n <= |cases|
    ensures Sum(Values(cases[..n], key)) == SumOver(cases, key, n) && |Values(cases[..n], key)| == CountOver(cases, key, n)
  {
    if n > 0 {
      ValuesSum(cases, key, n - 1);
      ValuesNext(cases, key, n);
      var last := cases[n - 1];
      if Usable(last, key) {
        SumAppend(Values(cases[..n - 1], key), [Reading(last, key)]);
        SumOne(Reading(last, key));
      } else {
        assert Values(cases[..n - 1], key) + [] == Values(cases[..n - 1], key);
      }
    }
  }

  lemma ValuesNext(cases: seq<Case>, key: string, n: nat)
    requires 0 < n <= |cases|
    ensures Values(cases[..n], key) ==
            Values(cases[..n - 1], key) + if Usable(cases[n - 1], key) then [Reading(cases[n - 1], key)] else []
  {
    CollectNext((c: Case) => if key in c.metrics then Number(c.metrics[key]) else None, cases, n);
  }

  lemma {:induction false} PassesSum(cases: seq<Case>, n: nat)
    requires n <= |cases|
    ensures Sum(Passes(cases[..n])) == Passed(cases, n) as real && |Passes(cases[..n])| == n
  {
    if n > 0 {
      PassesSum(cases, n - 1);
      CollectNext((c: Case) => Some(if c.passed then 1.0 else 0.0), cases, n);
      var x := if cases[n - 1].passed then 1.0 else 0.0;
      SumAppend(Passes(cases[..n - 1]), [x]);
      SumOne(x);
    }
  }

  lemma {:induction false} ScoresSum(cases: seq<Case>, n: nat)
    requires n <= |cases|
    ensures Sum(Scores(cases[..n])) == ScoreSum(cases, n) && |Scores(cases[..n])| == n
    ensures Scores(cases[..n]) == ScoresOf(cases)[..n]
  {
    if n > 0 {
      ScoresSum(cases, n - 1);
      CollectNext((c: Case) => Some(c.score), cases, n);
      SumAppend(Scores(cases[..n - 1]), [cases[n - 1].score]);
      SumOne(cases[n - 1].score);
      assert ScoresOf(cases)[..n] == ScoresOf(cases)[..n - 1] + [cases[n - 1].score];
    }
  }

  lemma Quotient(total: real, count: nat)
    requires count > 0
    ensures Averages(total / count as real, total, count)
  {
  }

  lemma MeanIs(round: Rounding, s: seq<real>, total: real, count: nat)
    requires Sum(s) == total && |s| == count
    ensures IsMean(round, Mean(round, s), total, count)
  {
    if count > 0 { Quotient(total, count); }
  }

  lemma ValuesMean(round: Rounding, cases: seq<Case>, key: string)
    ensures IsMean(round, Mean(round, Values(cases, key)), SumOver(cases, key, |cases|), CountOver(cases, key, |cases|))
  {
    ValuesSum(cases, key, |cases|);
    assert cases[..|cases|] == cases;
    MeanIs(round, Values(cases, key), SumOver(cases, key, |cases|), CountOver(cases, key, |cases|));
  }

  lemma ScoresAre(cases: seq<Case>)
    ensures Scores(cases) == ScoresOf(cases) && Sum(Scores(cases)) == ScoreSum(cases, |cases|)
  {
    ScoresSum(cases, |cases|);
    assert cases[..|cases|] == cases && ScoresOf(cases)[..|cases|] == ScoresOf(cases);
  }

  lemma QuantileIs(round: Rounding, cases: seq<Case>, f: real)
    requires cases != [] && 0.0 < f <= 1.0
    ensures IsQuantile(round, Quantile(round, Scores(cases), f), cases, f)
  {
    ScoresAre(cases);
    var s := ScoresOf(cases);
    QuantileCounts(s, f);
    forall c: int | RoundsUp(f, |s|, c) ensures c == Portion(f, |s|) {
      PortionMeans(f, |s|, c);
    }
    assert AtFraction(s, f, Nearest(s, f));
  }

  // ----- The whole summary -----

  /** The metric is the mean over the cases of what they record under the key. */
  ghost predicate Reports(round: Rounding, s: Summary, m: Metric, cases: seq<Case>, key: string) {
    m in s.figures && IsMean(round, s.figures[m], SumOver(cases, key, |cases|), CountOver(cases, key, |cases|))
  }

  /** Where each averaged metric is recorded. */
  function KeyOf(m: Metric): Option<string> {
    match m
    case MeanLatency => Some("latency_ms")
    case MeanTokens => Some("total_tokens")
    case MeanCost => Some("cost_usd")
    case Abstention => Some("abstained")
    case CitationCoverage => Some("citation_rate")
    case UnsupportedClaims => Some("unsupported_rate")
    case SafetyFailures => Some("safety_failure")
    case _ => None
  }

  lemma FigureIs(round: Rounding, cases: seq<Case>, m: Metric)
    requires KeyOf(m).Some?
    ensures Figure(round, cases, m) == Mean(round, Values(cases, KeyOf(m).value))
  {
  }

  /** Every averaged metric is the mean of the values recorded under its key. */
  lemma ReportsValues(round: Rounding, e: Evaluation, m: Metric)
    requires Summarize(round, e).Some? && KeyOf(m).Some?
    ensures Reports(round, Summarize(round, e).value, m, e.cases, KeyOf(m).value)
  {
    FigureIs(round, e.cases, m);
    ValuesMean(round, e.cases, KeyOf(m).value);
    AllMetrics(m);
  }

  lemma AllMetrics(m: Metric)
    ensures m in METRICS
  {
    assert METRICS[0] == PassRate && METRICS[1] == MeanScore && METRICS[2] == ScoreP10 && METRICS[3] == ScoreP50;
    assert METRICS[4] == ScoreP90 && METRICS[5] == MeanLatency && METRICS[6] == MeanTokens && METRICS[7] == MeanCost;
    assert METRICS[8] == Abstention && METRICS[9] == CitationCoverage && METRICS[10] == UnsupportedClaims;
    assert METRICS[11] == SafetyFailures;
  }

  /** Pass rate and mean score are the means over all cases. */
  lemma ReportsRates(round: Rounding, e: Evaluation)
    requires Summarize(round, e).Some?
    ensures var s, n := Summarize(round, e).value, |e.cases|;
      && PassRate in s.figures && IsMean(round, s.figures[PassRate], Passed(e.cases, n) as real, n)
      && MeanScore in s.figures && IsMean(round, s.figures[MeanScore], ScoreSum(e.cases, n), n)
  {
    var cases := e.cases;
    assert cases[..|cases|] == cases;
    PassesSum(cases, |cases|);
    MeanIs(round, Passes(cases), Passed(cases, |cases|) as real, |cases|);
    ScoresAre(cases);
    ScoresLength(cases);
    MeanIs(round, Scores(cases), ScoreSum(cases, |cases|), |cases|);
    AllMetrics(PassRate);
    AllMetrics(MeanScore);
  }

  function FractionOf(m: Metric): Option<real> {
    match m
    case ScoreP10 => Some(0.10)
    case ScoreP50 => Some(0.50)
    case ScoreP90 => Some(0.90)
    case _ => None
  }

  lemma QuantileFigureIs(round: Rounding, cases: seq<Case>, m: Metric)
    requires FractionOf(m).Some?
    ensures 0.0 < FractionOf(m).value <= 1.0
    ensures Figure(round, cases, m) == Quantile(round, Scores(cases), FractionOf(m).value)
  {
  }

  /** The three quantiles are scores with enough others on either side. */
  lemma ReportsQuantiles(round: Rounding, e: Evaluation, m: Metric)
    requires Summarize(round, e).Some? && FractionOf(m).Some?
    ensures m in Summarize(round, e).value.figures
    ensures IsQuantile(round, Summarize(round, e).value.figures[m], e.cases, FractionOf(m).value)
  {
    QuantileFigureIs(round, e.cases, m);
    QuantileIs(round, e.cases, FractionOf(m).value);
    AllMetrics(m);
  }

  ghost predicate IsLeast(x: real, s: seq<real>) { x in s && forall y :: y in s ==> x <= y }

  ghost predicate IsGreatest(x: real, s: seq<real>) { x in s && forall y :: y in s ==> y <= x }

  /** The count is that of the cases, and the extremes are the rounded least and greatest score. */
  lemma ReportsExtremes(round: Rounding, e: Evaluation)
    requires Summarize(round, e).Some?
    ensures var s := Summarize(round, e).value;
      && s.count == |e.cases|
      && (exists x :: IsLeast(x, ScoresOf(e.cases)) && s.min == round(x))
      && (exists x :: IsGreatest(x, ScoresOf(e.cases)) && s.max == round(x))
  {
    ScoresAre(e.cases);
    ScoresLength(e.cases);
    LeastIsLeast(Scores(e.cases));
    assert IsLeast(Least(Scores(e.cases)), ScoresOf(e.cases)) && IsGreatest(Greatest(Scores(e.cases)), ScoresOf(e.cases));
  }

  /** The keys whose integers must convert are just those that the averaged metrics read. */
  lemma KeysRead(key: string)
    ensures key in KEYS <==> exists m :: KeyOf(m) == Some(key)
  {
    assert KEYS[0] == KeyOf(CitationCoverage).value && KEYS[1] == KeyOf(UnsupportedClaims).value;
    assert KEYS[2] == KeyOf(MeanLatency).value && KEYS[3] == KeyOf(MeanTokens).value && KEYS[4] == KeyOf(MeanCost).value;
    assert KEYS[5] == KeyOf(Abstention).value && KEYS[6] == KeyOf(SafetyFailures).value;
  }

  /** A summary is refused exactly for an unfinished or empty evaluation, or an integer beyond the floats. */
  lemma SummaryRefused(round: Rounding, e: Evaluation)
    ensures Summarize(round, e).None? <==> !e.completed || e.cases == [] || exists c :: c in e.cases && !Convertible(c)
  {
  }
}
