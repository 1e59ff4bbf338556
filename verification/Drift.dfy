/**
 * Drift between two completed evaluations: order-independent summaries with nearest-rank
 * quantiles, the differences between two summaries, and the threshold rules that warn.
 * Numbers are exact; rounding to six places is a parameter of which only monotonicity and
 * oddness are used.
 */
module Drift {
  import opened Options
  import opened Sorting
  import opened Numbers

  type Rounding = real -> real

  ghost predicate MonotoneOdd(round: Rounding) {
    (forall x, y :: x <= y ==> round(x) <= round(y)) && (forall x :: round(-x) == -round(x))
  }

  // ----- Means and quantiles -----

  function Sum(s: seq<real>): real {
    if s == [] then 0.0 else s[0] + Sum(s[1..])
  }

  function Mean(round: Rounding, s: seq<real>): Option<real> {
    if s == [] then None else Some(round(Sum(s) / |s| as real))
  }

  predicate AtMost(x: real, y: real) { x <= y }

  lemma AtMostTotal()
    ensures TotalPreorder(AtMost)
  {
  }

  function Ordered(s: seq<real>): (t: seq<real>)
    ensures |t| == |s|
  {
    AtMostTotal();
    SortSorted(s, AtMost);
    assert |multiset(s)| == |multiset(Sort(s, AtMost))|;
    Sort(s, AtMost)
  }

  function Ceil(x: real): int { -(-x).Floor }

  /** The fraction f of n values. */
  function Share(f: real, n: nat): real { f * n as real }

  lemma NonNegative(x: real, y: real)
    requires x >= 0.0 && y >= 0.0
    ensures x * y >= 0.0
    ensures x > 0.0 && y > 0.0 ==> x * y > 0.0
  {
  }

  lemma ShareGrows(f: real, g: real, n: nat)
    requires f <= g
    ensures Share(f, n) <= Share(g, n)
  {
    var m := n as real;
    NonNegative(g - f, m);
    assert (g - f) * m == g * m - f * m;
  }

  lemma ShareBounds(f: real, n: nat)
    requires 0.0 <= f <= 1.0
    ensures 0.0 <= Share(f, n) <= n as real
    ensures f > 0.0 && n > 0 ==> Share(f, n) > 0.0
  {
    NonNegative(f, n as real);
    ShareGrows(f, 1.0, n);
    assert Share(1.0, n) == n as real;
  }

  lemma CeilWithin(x: real, n: nat)
    requires 0.0 <= x <= n as real
    ensures 0 <= Ceil(x) <= n && (x > 0.0 ==> Ceil(x) >= 1)
  {
  }

  lemma CeilGrows(x: real, y: real)
    requires x <= y
    ensures Ceil(x) <= Ceil(y)
  {
  }

  /** How many of n values make up the fraction f, rounded up. */
  function Portion(f: real, n: nat): (c: int)
    requires 0.0 <= f <= 1.0
    ensures 0 <= c <= n
    ensures f > 0.0 && n > 0 ==> c >= 1
  {
    ShareBounds(f, n);
    CeilWithin(Share(f, n), n);
    Ceil(Share(f, n))
  }

  /** The zero-based position of the f-quantile among n ordered values. */
  function Rank(f: real, n: nat): (r: nat)
    requires 0.0 <= f <= 1.0 && n > 0
    ensures r < n
  {
    if Portion(f, n) == 0 then 0 else Portion(f, n) - 1
  }

  /** The quantile before rounding. */
  function Nearest(s: seq<real>, f: real): real
    requires 0.0 <= f <= 1.0 && s != []
  {
    Ordered(s)[Rank(f, |s|)]
  }

  function Quantile(round: Rounding, s: seq<real>, f: real): Option<real>
    requires 0.0 <= f <= 1.0
  {
    if s == [] then None else Some(round(Nearest(s, f)))
  }

  function Least(s: seq<real>): real
    requires s != []
  {
    if |s| == 1 then s[0] else if s[0] <= Least(s[1..]) then s[0] else Least(s[1..])
  }

  function Greatest(s: seq<real>): real
    requires s != []
  {
    if |s| == 1 then s[0] else if s[0] >= Greatest(s[1..]) then s[0] else Greatest(s[1..])
  }

  // ----- Summaries -----

  datatype Value = Flag(flag: bool) | Whole(n: int) | Finite(number: real) | NotFinite | Other

  function Number(v: Value): Option<real> {
    match v
    case Flag(b) => Some(if b then 1.0 else 0.0)
    case Whole(n) => Some(n as real)
    case Finite(x) => Some(x)
    case NotFinite => None
    case Other => None
  }

  datatype Case = Case(passed: bool, score: real, metrics: map<string, Value>)

  datatype Evaluation = Evaluation(completed: bool, datasetHash: string, modelRevision: string,
                                   providerRevision: string, configRevision: string, cases: seq<Case>)

  datatype Metric =
    | PassRate | MeanScore | ScoreP10 | ScoreP50 | ScoreP90 | MeanLatency | MeanTokens | MeanCost
    | Abstention | CitationCoverage | UnsupportedClaims | SafetyFailures

  const METRICS: seq<Metric> := [PassRate, MeanScore, ScoreP10, ScoreP50, ScoreP90, MeanLatency, MeanTokens,
                                 MeanCost, Abstention, CitationCoverage, UnsupportedClaims, SafetyFailures]

  function Collect<T, R>(f: T -> Option<R>, s: seq<T>): seq<R> {
    if s == [] then [] else (match f(s[0]) case Some(x) => [x] case None => []) + Collect(f, s[1..])
  }

  function Scores(cases: seq<Case>): seq<real> {
    Collect((c: Case) => Some(c.score), cases)
  }

  function Passes(cases: seq<Case>): seq<real> {
    Collect((c: Case) => Some(if c.passed then 1.0 else 0.0), cases)
  }

  /** The usable values recorded under a key. */
  function Values(cases: seq<Case>, key: string): seq<real> {
    Collect((c: Case) => if key in c.metrics then Number(c.metrics[key]) else None, cases)
  }

  datatype Summary = Summary(count: nat, min: real, max: real, figures: map<Metric, Option<real>>)

  function Figure(round: Rounding, cases: seq<Case>, m: Metric): Option<real> {
    match m
    case PassRate => Mean(round, Passes(cases))
    case MeanScore => Mean(round, Scores(cases))
    case ScoreP10 => Quantile(round, Scores(cases), 0.10)
    case ScoreP50 => Quantile(round, Scores(cases), 0.50)
    case ScoreP90 => Quantile(round, Scores(cases), 0.90)
    case MeanLatency => Mean(round, Values(cases, "latency_ms"))
    case MeanTokens => Mean(round, Values(cases, "total_tokens"))
    case MeanCost => Mean(round, Values(cases, "cost_usd"))
    case Abstention => Mean(round, Values(cases, "abstained"))
    case CitationCoverage => Mean(round, Values(cases, "citation_rate"))
    case UnsupportedClaims => Mean(round, Values(cases, "unsupported_rate"))
    case SafetyFailures => Mean(round, Values(cases, "safety_failure"))
  }

  function Figures(round: Rounding, cases: seq<Case>): map<Metric, Option<real>> {
    map m | m in METRICS :: Figure(round, cases, m)
  }

  lemma {:induction false} ScoresLength(cases: seq<Case>)
    ensures |Scores(cases)| == |cases|
  {
    if cases != [] {
      ScoresLength(cases[1..]);
    }
  }

  const KEYS: seq<string> := ["citation_rate", "unsupported_rate", "latency_ms", "total_tokens", "cost_usd",
                              "abstained", "safety_failure"]

  /** Converting every recorded integer to a float succeeds. */
  predicate Convertible(c: Case) {
    forall key :: key in KEYS && key in c.metrics ==> (c.metrics[key].Whole? ==> FitsFloat(c.metrics[key].n))
  }

  /** None where the program raises: an unfinished or empty evaluation, or an integer beyond the floats. */
  function Summarize(round: Rounding, e: Evaluation): Option<Summary> {
    if !e.completed || e.cases == [] || exists c :: c in e.cases && !Convertible(c) then None
    else
      ScoresLength(e.cases);
      Some(Summary(|e.cases|, round(Least(Scores(e.cases))), round(Greatest(Scores(e.cases))),
                   Figures(round, e.cases)))
  }

  // ----- Ordering of the quantiles -----

  lemma OrderedSorted(s: seq<real>)
    ensures Sorted(Ordered(s), AtMost) && multiset(Ordered(s)) == multiset(s)
  {
    AtMostTotal();
    SortSorted(s, AtMost);
  }

  lemma {:induction false} LeastIsLeast(s: seq<real>)
    requires s != []
    ensures Least(s) in s && Greatest(s) in s
    ensures forall x :: x in s ==> Least(s) <= x <= Greatest(s)
  {
    if |s| > 1 {
      LeastIsLeast(s[1..]);
      assert s == [s[0]] + s[1..];
    }
  }

  lemma RankGrows(f: real, g: real, n: nat)
    requires 0.0 <= f <= g <= 1.0 && n > 0
    ensures Rank(f, n) <= Rank(g, n)
  {
    ShareGrows(f, g, n);
    CeilGrows(Share(f, n), Share(g, n));
  }

  lemma NearestGrows(s: seq<real>, f: real, g: real)
    requires s != [] && 0.0 <= f <= g <= 1.0
    ensures Least(s) <= Nearest(s, f) <= Nearest(s, g) <= Greatest(s)
  {
    RankGrows(f, g, |s|);
    OrderedSorted(s);
    LeastIsLeast(s);
    SameMembers(Ordered(s), s, Nearest(s, f));
    SameMembers(Ordered(s), s, Nearest(s, g));
    assert Nearest(s, f) in Ordered(s) && Nearest(s, g) in Ordered(s);
  }

  /** min <= p10 <= p50 <= p90 <= max in every summary. */
  lemma SummaryOrdered(round: Rounding, e: Evaluation)
    requires MonotoneOdd(round) && Summarize(round, e).Some?
    ensures var s := Summarize(round, e).value;
      && (forall m :: m in METRICS ==> m in s.figures)
      && s.figures[ScoreP10].Some? && s.figures[ScoreP50].Some? && s.figures[ScoreP90].Some?
      && s.min <= s.figures[ScoreP10].value <= s.figures[ScoreP50].value <= s.figures[ScoreP90].value <= s.max
  {
    ScoresLength(e.cases);
    NearestGrows(Scores(e.cases), 0.10, 0.50);
    NearestGrows(Scores(e.cases), 0.50, 0.90);
  }

  // ----- What the rank means -----

  function NoMore(s: seq<real>, q: real): nat {
    if s == [] then 0 else (if s[0] <= q then 1 else 0) + NoMore(s[1..], q)
  }

  function NoLess(s: seq<real>, q: real): nat {
    if s == [] then 0 else (if s[0] >= q then 1 else 0) + NoLess(s[1..], q)
  }

  lemma {:induction false} CountInsert(x: real, s: seq<real>, q: real)
    ensures NoMore(Insert(x, s, AtMost), q) == NoMore(s, q) + if x <= q then 1 else 0
    ensures NoLess(Insert(x, s, AtMost), q) == NoLess(s, q) + if x >= q then 1 else 0
  {
    if s == [] {
    } else if AtMost(x, s[0]) {
      assert ([x] + s)[1..] == s;
    } else {
      CountInsert(x, s[1..], q);
      assert ([s[0]] + Insert(x, s[1..], AtMost))[1..] == Insert(x, s[1..], AtMost);
    }
  }

  lemma {:induction false} CountOrdered(s: seq<real>, q: real)
    ensures NoMore(Ordered(s), q) == NoMore(s, q) && NoLess(Ordered(s), q) == NoLess(s, q)
  {
    if s != [] {
      CountOrdered(s[1..], q);
      CountInsert(s[0], Ordered(s[1..]), q);
    }
  }

  lemma {:induction false} CountPrefix(t: seq<real>, q: real, k: nat)
    requires k <= |t| && forall i :: 0 <= i < k ==> t[i] <= q
    ensures NoMore(t, q) >= k
  {
    if k > 0 {
      CountPrefix(t[1..], q, k - 1);
    }
  }

  lemma {:induction false} CountSuffix(t: seq<real>, q: real, k: nat)
    requires k <= |t| && forall i :: k <= i < |t| ==> t[i] >= q
    ensures NoLess(t, q) >= |t| - k
  {
    if t != [] {
      if k > 0 {
        CountSuffix(t[1..], q, k - 1);
      } else {
        CountSuffix(t[1..], q, 0);
      }
    }
  }

  lemma RankCounts(s: seq<real>, r: nat)
    requires r < |s|
    ensures Ordered(s)[r] in s
    ensures NoMore(s, Ordered(s)[r]) >= r + 1
    ensures NoLess(s, Ordered(s)[r]) >= |s| - r
  {
    var t := Ordered(s);
    var q := t[r];
    OrderedSorted(s);
    SameMembers(t, s, q);
    CountOrdered(s, q);
    forall i | 0 <= i < |t| ensures (i <= r ==> t[i] <= q) && (r <= i ==> t[i] >= q) {
      if i < r { assert AtMost(t[i], t[r]); }
      if r < i { assert AtMost(t[r], t[i]); }
    }
    CountPrefix(t, q, r + 1);
    CountSuffix(t, q, r);
  }

  /** Enough values lie on either side of the f-quantile. */
  lemma QuantileCounts(s: seq<real>, f: real)
    requires s != [] && 0.0 < f <= 1.0
    ensures Nearest(s, f) in s
    ensures NoMore(s, Nearest(s, f)) >= Portion(f, |s|)
    ensures NoLess(s, Nearest(s, f)) >= |s| - Portion(f, |s|) + 1
  {
    RankCounts(s, Rank(f, |s|));
  }

  lemma CeilMeans(x: real)
    ensures Ceil(x) as real - 1.0 < x <= Ceil(x) as real
  {
  }

  /** The portion is the fraction of n, rounded up. */
  lemma PortionMeans(f: real, n: nat, c: int)
    requires 0.0 <= f <= 1.0
    ensures Portion(f, n) == c <==> c as real - 1.0 < f * n as real <= c as real
  {
    CeilMeans(Share(f, n));
    Rounded(Share(f, n), Ceil(Share(f, n)), c);
  }

  lemma Rounded(x: real, a: int, b: int)
    requires a as real - 1.0 < x <= a as real
    ensures a == b <==> b as real - 1.0 < x <= b as real
  {
  }

  // ----- The order of the cases does not matter -----

  lemma {:induction false} CollectAppend<T, R>(f: T -> Option<R>, a: seq<T>, b: seq<T>)
    ensures Collect(f, a + b) == Collect(f, a) + Collect(f, b)
  {
    if a == [] {
      assert a + b == b;
    } else {
      assert (a + b)[1..] == a[1..] + b;
      CollectAppend(f, a[1..], b);
    }
  }

  lemma Without<T>(a: seq<T>, b: seq<T>, j: nat)
    requires a != [] && j < |b| && b[j] == a[0] && multiset(a) == multiset(b)
    ensures multiset(b[..j] + b[j + 1..]) == multiset(a[1..])
  {
    assert a == [a[0]] + a[1..];
    assert b == b[..j] + [b[j]] + b[j + 1..];
    assert multiset(b[..j] + b[j + 1..]) == multiset(b) - multiset{b[j]};
  }

  lemma CollectAround<T, R>(f: T -> Option<R>, b: seq<T>, j: nat)
    requires j < |b|
    ensures multiset(Collect(f, b)) ==
            multiset(Collect(f, [b[j]])) + multiset(Collect(f, b[..j] + b[j + 1..]))
  {
    var c, d := b[..j], b[j + 1..];
    SplitAround(b, j);
    CollectThree(f, c, [b[j]], d);
    CollectAppend(f, c, d);
    Rearrange(Collect(f, c), Collect(f, [b[j]]), Collect(f, d));
  }

  lemma SplitAround<T>(b: seq<T>, j: nat)
    requires j < |b|
    ensures b == b[..j] + ([b[j]] + b[j + 1..])
  {
  }

  lemma CollectThree<T, R>(f: T -> Option<R>, a: seq<T>, b: seq<T>, c: seq<T>)
    ensures Collect(f, a + (b + c)) == Collect(f, a) + (Collect(f, b) + Collect(f, c))
  {
    CollectAppend(f, a, b + c);
    CollectAppend(f, b, c);
  }

  lemma Rearrange<R>(c: seq<R>, x: seq<R>, d: seq<R>)
    ensures multiset(c + (x + d)) == multiset(x) + multiset(c + d)
  {
    assert multiset(c + (x + d)) == multiset(c) + multiset(x + d);
    assert multiset(x + d) == multiset(x) + multiset(d);
    assert multiset(c + d) == multiset(c) + multiset(d);
  }

  lemma {:induction false} CollectPermuted<T, R>(f: T -> Option<R>, a: seq<T>, b: seq<T>)
    requires multiset(a) == multiset(b)
    ensures multiset(Collect(f, a)) == multiset(Collect(f, b))
  {
    if a == [] {
      assert |multiset(b)| == 0;
    } else {
      SameMembers(a, b, a[0]);
      var j :| 0 <= j < |b| && b[j] == a[0];
      Without(a, b, j);
      CollectPermuted(f, a[1..], b[..j] + b[j + 1..]);
      CollectAround(f, b, j);
      CollectAround(f, a, 0);
      assert a[..0] + a[0 + 1..] == a[1..];
    }
  }

  lemma {:induction false} SumInsert(x: real, s: seq<real>)
    ensures Sum(Insert(x, s, AtMost)) == x + Sum(s)
  {
    if s == [] {
    } else if AtMost(x, s[0]) {
      assert ([x] + s)[1..] == s;
    } else {
      SumInsert(x, s[1..]);
      assert ([s[0]] + Insert(x, s[1..], AtMost))[1..] == Insert(x, s[1..], AtMost);
    }
  }

  lemma {:induction false} SumOrdered(s: seq<real>)
    ensures Sum(Ordered(s)) == Sum(s)
  {
    if s != [] {
      SumOrdered(s[1..]);
      SumInsert(s[0], Ordered(s[1..]));
    }
  }

  lemma OrderedPermuted(a: seq<real>, b: seq<real>)
    requires multiset(a) == multiset(b)
    ensures Ordered(a) == Ordered(b)
  {
    AtMostTotal();
    OrderedSorted(a);
    OrderedSorted(b);
    SortedUnique(Ordered(a), Ordered(b), AtMost);
  }

  lemma FiguresPermuted(round: Rounding, a: seq<real>, b: seq<real>)
    requires multiset(a) == multiset(b)
    ensures |a| == |b| && Mean(round, a) == Mean(round, b)
    ensures forall f :: 0.0 <= f <= 1.0 ==> Quantile(round, a, f) == Quantile(round, b, f)
    ensures a != [] ==> Least(a) == Least(b) && Greatest(a) == Greatest(b)
  {
    OrderedPermuted(a, b);
    SumOrdered(a);
    SumOrdered(b);
    SameMembers(a, b, 0.0);
    if a != [] {
      LeastIsLeast(a);
      LeastIsLeast(b);
      SameMembers(a, b, Least(a));
      SameMembers(a, b, Least(b));
      SameMembers(a, b, Greatest(a));
      SameMembers(a, b, Greatest(b));
    }
  }

  lemma ScoresPermuted(round: Rounding, a: seq<Case>, b: seq<Case>)
    requires multiset(a) == multiset(b)
    ensures multiset(Scores(a)) == multiset(Scores(b)) && Mean(round, Passes(a)) == Mean(round, Passes(b))
  {
    CollectPermuted((c: Case) => Some(c.score), a, b);
    CollectPermuted((c: Case) => Some(if c.passed then 1.0 else 0.0), a, b);
    FiguresPermuted(round, Passes(a), Passes(b));
  }

  lemma ValuesPermuted(round: Rounding, a: seq<Case>, b: seq<Case>, key: string)
    requires multiset(a) == multiset(b)
    ensures Mean(round, Values(a, key)) == Mean(round, Values(b, key))
  {
    CollectPermuted((c: Case) => if key in c.metrics then Number(c.metrics[key]) else None, a, b);
    FiguresPermuted(round, Values(a, key), Values(b, key));
  }

  lemma FigurePermuted(round: Rounding, a: seq<Case>, b: seq<Case>, m: Metric)
    requires multiset(a) == multiset(b)
    ensures Figure(round, a, m) == Figure(round, b, m)
  {
    ScoresPermuted(round, a, b);
    FiguresPermuted(round, Scores(a), Scores(b));
    match m {
      case MeanLatency => ValuesPermuted(round, a, b, "latency_ms");
      case MeanTokens => ValuesPermuted(round, a, b, "total_tokens");
      case MeanCost => ValuesPermuted(round, a, b, "cost_usd");
      case Abstention => ValuesPermuted(round, a, b, "abstained");
      case CitationCoverage => ValuesPermuted(round, a, b, "citation_rate");
      case UnsupportedClaims => ValuesPermuted(round, a, b, "unsupported_rate");
      case SafetyFailures => ValuesPermuted(round, a, b, "safety_failure");
      case _ =>
    }
  }

  lemma ExtremesPermuted(round: Rounding, a: seq<Case>, b: seq<Case>)
    requires multiset(a) == multiset(b) && a != []
    ensures |a| == |b| && |Scores(a)| == |a| && |Scores(b)| == |b|
    ensures Least(Scores(a)) == Least(Scores(b)) && Greatest(Scores(a)) == Greatest(Scores(b))
  {
    SameCount(a, b);
    ScoresLength(a);
    ScoresLength(b);
    ScoresPermuted(round, a, b);
    FiguresPermuted(round, Scores(a), Scores(b));
  }

  lemma AllFiguresPermuted(round: Rounding, a: seq<Case>, b: seq<Case>)
    requires multiset(a) == multiset(b)
    ensures Figures(round, a) == Figures(round, b)
  {
    forall m | m in METRICS ensures Figure(round, a, m) == Figure(round, b, m) {
      FigurePermuted(round, a, b, m);
    }
  }

  /** The summary depends on which cases were evaluated, not on their order. */
  lemma SummaryIgnoresCaseOrder(round: Rounding, e: Evaluation, cases: seq<Case>)
    requires multiset(cases) == multiset(e.cases)
    ensures Summarize(round, e.(cases := cases)) == Summarize(round, e)
  {
    SameCount(cases, e.cases);
    forall c ensures c in cases <==> c in e.cases {
      SameMembers(cases, e.cases, c);
    }
    if e.cases != [] {
      ExtremesPermuted(round, cases, e.cases);
      AllFiguresPermuted(round, cases, e.cases);
    }
  }

  lemma SameCount(a: seq<Case>, b: seq<Case>)
    requires multiset(a) == multiset(b)
    ensures |a| == |b|
  {
    assert |multiset(a)| == |a| && |multiset(b)| == |b|;
  }
}
