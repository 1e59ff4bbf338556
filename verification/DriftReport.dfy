/** The comparison of two summaries: differences per metric and the warnings they raise. */
module DriftReport {
  import opened Options
  import opened Drift

  // ----- Differences -----

  function Get(s: Summary, m: Metric): Option<real> {
    if m in s.figures then s.figures[m] else None
  }

  function Delta(round: Rounding, before: Summary, after: Summary, m: Metric): Option<real> {
    if Get(before, m).None? || Get(after, m).None? then None
    else Some(round(Get(after, m).value - Get(before, m).value))
  }

  predicate SameRuntime(a: Evaluation, b: Evaluation) {
    a.modelRevision == b.modelRevision && a.providerRevision == b.providerRevision && a.configRevision == b.configRevision
  }

  datatype Deltas = Deltas(figures: map<Metric, Option<real>>, datasetChanged: bool, runtimeChanged: bool)

  // ----- Rules -----

  datatype Direction = Decrease | Increase | RatioIncrease

  datatype Rule = Rule(metric: Metric, direction: Direction, threshold: real)

  datatype Thresholds = Thresholds(
    minimumSampleSize: nat, passRateDrop: real, meanScoreDrop: real, scoreP10Drop: real, latencyIncrease: real,
    tokenIncrease: real, costIncrease: real, abstentionIncrease: real, citationDrop: real,
    unsupportedIncrease: real, safetyIncrease: real)
  {
    function Rules(): seq<Rule> {
      [Rule(PassRate, Decrease, passRateDrop), Rule(MeanScore, Decrease, meanScoreDrop),
       Rule(ScoreP10, Decrease, scoreP10Drop), Rule(MeanLatency, RatioIncrease, latencyIncrease),
       Rule(MeanTokens, RatioIncrease, tokenIncrease), Rule(MeanCost, RatioIncrease, costIncrease),
       Rule(Abstention, Increase, abstentionIncrease), Rule(CitationCoverage, Decrease, citationDrop),
       Rule(UnsupportedClaims, Increase, unsupportedIncrease), Rule(SafetyFailures, Increase, safetyIncrease)]
    }

    /** The values a threshold record may hold. */
    predicate Valid() {
      2 <= minimumSampleSize <= 10_000 && forall i :: 0 <= i < |Rules()| ==> Rules()[i].threshold >= 0.0
    }
  }

  /** The relative change, None standing for infinity. */
  function Ratio(left: real, right: real): Option<real> {
    if left == 0.0 then (if right == 0.0 then Some(0.0) else None) else Some((right - left) / left)
  }

  predicate Triggered(rule: Rule, left: real, right: real) {
    match rule.direction
    case Increase => right - left >= rule.threshold
    case Decrease => left - right >= rule.threshold
    case RatioIncrease => Ratio(left, right).None? || Ratio(left, right).value >= rule.threshold
  }

  datatype Warning =
    | InsufficientSample(baseline: nat, candidate: nat, minimum: nat)
    | Moved(rule: Rule, delta: real, observed: Option<real>)

  predicate Warns(rule: Rule, before: Summary, after: Summary) {
    && Get(before, rule.metric).Some? && Get(after, rule.metric).Some?
    && Triggered(rule, Get(before, rule.metric).value, Get(after, rule.metric).value)
  }

  /** The warning carries the rounded change and, for a ratio rule, the rounded ratio unless infinite. */
  predicate Describes(w: Warning, round: Rounding, before: Summary, after: Summary) {
    && w.Moved? && Warns(w.rule, before, after)
    && var left, right := Get(before, w.rule.metric).value, Get(after, w.rule.metric).value;
    && w.delta == round(right - left)
    && w.observed == if !w.rule.direction.RatioIncrease? then Some(round(right - left))
                     else if left == 0.0 && right != 0.0 then None
                     else Some(round(Ratio(left, right).value))
  }

  /** The rules that warn, in rule order. */
  function Raised(rules: seq<Rule>, before: Summary, after: Summary): seq<Rule> {
    if rules == [] then []
    else (if Warns(rules[0], before, after) then [rules[0]] else []) + Raised(rules[1..], before, after)
  }

  function RulesOf(ws: seq<Warning>): seq<Rule>
    requires forall i :: 0 <= i < |ws| ==> ws[i].Moved?
  {
    if ws == [] then [] else [ws[0].rule] + RulesOf(ws[1..])
  }

  datatype Report = Report(before: Summary, after: Summary, deltas: Deltas, warnings: seq<Warning>)

  datatype Outcome = Refused | Compared(report: Report)

  method DetectDrift(round: Rounding, t: Thresholds, baseline: Evaluation, candidate: Evaluation) returns (r: Outcome)
    ensures r.Refused? <==> Summarize(round, baseline).None? || Summarize(round, candidate).None?
    ensures r.Compared? ==>
      var before, after, report := Summarize(round, baseline).value, Summarize(round, candidate).value, r.report;
      && report.before == before && report.after == after
      && report.deltas.figures == (map m | m in METRICS :: Delta(round, before, after, m))
      && (report.deltas.datasetChanged <==> baseline.datasetHash != candidate.datasetHash)
      && (report.deltas.runtimeChanged <==> !SameRuntime(baseline, candidate))
      && (before.count < t.minimumSampleSize || after.count < t.minimumSampleSize ==>
            report.warnings == [InsufficientSample(before.count, after.count, t.minimumSampleSize)])
      && (before.count >= t.minimumSampleSize && after.count >= t.minimumSampleSize ==>
            && (forall i :: 0 <= i < |report.warnings| ==> Describes(report.warnings[i], round, before, after))
            && RulesOf(report.warnings) == Raised(t.Rules(), before, after))
  {
    if Summarize(round, baseline).None? || Summarize(round, candidate).None? {
      return Refused;
    }
    var before, after := Summarize(round, baseline).value, Summarize(round, candidate).value;
    var figures := FillDeltas(round, before, after);
    var deltas := Deltas(figures, baseline.datasetHash != candidate.datasetHash, !SameRuntime(baseline, candidate));
    if before.count < t.minimumSampleSize || after.count < t.minimumSampleSize {
      return Compared(Report(before, after, deltas, [InsufficientSample(before.count, after.count, t.minimumSampleSize)]));
    }
    var warnings := RaiseWarnings(round, t.Rules(), before, after);
    r := Compared(Report(before, after, deltas, warnings));
  }

  method FillDeltas(round: Rounding, before: Summary, after: Summary) returns (deltas: map<Metric, Option<real>>)
    ensures deltas == map m | m in METRICS :: Delta(round, before, after, m)
  {
    deltas := map[];
    for i := 0 to |METRICS|
      invariant deltas.Keys == set m | m in METRICS[..i]
      invariant forall m :: m in deltas ==> m in METRICS && deltas[m] == Delta(round, before, after, m)
    {
      deltas := deltas[METRICS[i] := Delta(round, before, after, METRICS[i])];
      assert METRICS[..i + 1] == METRICS[..i] + [METRICS[i]];
    }
    assert METRICS[..|METRICS|] == METRICS;
  }

  /** The warnings raised so far and the rules still to come make up all the rules that warn. */
  ghost predicate OnTrack(ws: seq<Warning>, rest: seq<Rule>, rules: seq<Rule>, round: Rounding, before: Summary, after: Summary) {
    && (forall k :: 0 <= k < |ws| ==> ws[k].Moved? && Describes(ws[k], round, before, after))
    && RulesOf(ws) + Raised(rest, before, after) == Raised(rules, before, after)
  }

  lemma OnTrackSilent(ws: seq<Warning>, rest: seq<Rule>, rules: seq<Rule>, round: Rounding, before: Summary, after: Summary)
    requires OnTrack(ws, rest, rules, round, before, after) && rest != [] && !Warns(rest[0], before, after)
    ensures OnTrack(ws, rest[1..], rules, round, before, after)
  {
    RaisedStep(rest, before, after);
  }

  lemma OnTrackWarns(ws: seq<Warning>, rest: seq<Rule>, rules: seq<Rule>, round: Rounding, before: Summary, after: Summary, w: Warning)
    requires OnTrack(ws, rest, rules, round, before, after) && rest != [] && Warns(rest[0], before, after)
    requires w.Moved? && w.rule == rest[0] && Describes(w, round, before, after)
    ensures OnTrack(ws + [w], rest[1..], rules, round, before, after)
  {
    RaisedStep(rest, before, after);
    RulesAppend(ws, w);
    var tail := Raised(rest[1..], before, after);
    assert RulesOf(ws) + ([rest[0]] + tail) == RulesOf(ws) + [w.rule] + tail;
  }

  method RaiseWarnings(round: Rounding, rules: seq<Rule>, before: Summary, after: Summary) returns (ws: seq<Warning>)
    ensures forall i :: 0 <= i < |ws| ==> ws[i].Moved? && Describes(ws[i], round, before, after)
    ensures RulesOf(ws) == Raised(rules, before, after)
  {
    ws := [];
    for i := 0 to |rules|
      invariant OnTrack(ws, rules[i..], rules, round, before, after)
    {
      assert rules[i..][1..] == rules[i + 1..];
      var w := Apply(round, rules[i], before, after);
      if w.Some? {
        OnTrackWarns(ws, rules[i..], rules, round, before, after, w.value);
        ws := ws + [w.value];
      } else {
        OnTrackSilent(ws, rules[i..], rules, round, before, after);
      }
    }
  }

  method Apply(round: Rounding, rule: Rule, before: Summary, after: Summary) returns (w: Option<Warning>)
    ensures w.Some? <==> Warns(rule, before, after)
    ensures w.Some? ==> w.value.Moved? && w.value.rule == rule && Describes(w.value, round, before, after)
  {
    var left, right := Get(before, rule.metric), Get(after, rule.metric);
    if left.None? || right.None? || !Triggered(rule, left.value, right.value) {
      return None;
    }
    var delta := right.value - left.value;
    var observed := if rule.direction.RatioIncrease? then Ratio(left.value, right.value) else Some(delta);
    w := Some(Moved(rule, round(delta), if observed.None? then None else Some(round(observed.value))));
  }

  lemma RaisedStep(rules: seq<Rule>, before: Summary, after: Summary)
    requires rules != []
    ensures Raised(rules, before, after) ==
            if Warns(rules[0], before, after) then [rules[0]] + Raised(rules[1..], before, after)
            else Raised(rules[1..], before, after)
  {
  }

  lemma {:induction false} RulesAppend(ws: seq<Warning>, w: Warning)
    requires w.Moved? && forall i :: 0 <= i < |ws| ==> ws[i].Moved?
    ensures RulesOf(ws + [w]) == RulesOf(ws) + [w.rule]
  {
    if ws != [] {
      assert (ws + [w])[1..] == ws[1..] + [w];
      RulesAppend(ws[1..], w);
    }
  }

  // ----- Swapping the cohorts -----

  /** Every difference changes sign, and only the sign. */
  lemma SwapNegatesDeltas(round: Rounding, before: Summary, after: Summary, m: Metric)
    requires MonotoneOdd(round)
    ensures var d, e := Delta(round, before, after, m), Delta(round, after, before, m);
      (d.None? <==> e.None?) && (d.Some? ==> e.value == -d.value)
  {
    if Get(before, m).Some? && Get(after, m).Some? {
      var x := Get(after, m).value - Get(before, m).value;
      assert Get(before, m).value - Get(after, m).value == -x;
    }
  }

  /** A difference is positive when the metric rose by more than rounding hides, and never negative when it rose. */
  lemma DeltaSign(round: Rounding, before: Summary, after: Summary, m: Metric)
    requires MonotoneOdd(round) && Get(before, m).Some? && Get(after, m).Some?
    ensures Delta(round, before, after, m) == Some(round(Get(after, m).value - Get(before, m).value))
    ensures Get(after, m).value >= Get(before, m).value ==> Delta(round, before, after, m).value >= 0.0
    ensures Get(after, m).value <= Get(before, m).value ==> Delta(round, before, after, m).value <= 0.0
  {
    assert round(-0.0) == -round(0.0);
  }

  lemma RatioSign(left: real, right: real)
    requires left != 0.0
    ensures Ratio(left, right).value > 0.0 <==> (left > 0.0 && right > left) || (left < 0.0 && right < left)
  {
    var x, r := right - left, (right - left) / left;
    assert r * left == x;
    if r > 0.0 {
      assert left > 0.0 ==> x > 0.0;
      assert left < 0.0 ==> x < 0.0;
    } else {
      assert left > 0.0 ==> x <= 0.0;
      assert left < 0.0 ==> x >= 0.0;
    }
  }

  /** With a positive threshold no rule warns about both directions of one comparison. */
  lemma NeverBothWays(rule: Rule, before: Summary, after: Summary)
    requires rule.threshold > 0.0
    ensures !(Warns(rule, before, after) && Warns(rule, after, before))
  {
    if Warns(rule, before, after) && rule.direction.RatioIncrease? {
      var left, right := Get(before, rule.metric).value, Get(after, rule.metric).value;
      if left != 0.0 { RatioSign(left, right); }
      if right != 0.0 { RatioSign(right, left); }
    }
  }

  lemma {:induction false} RaisedMember(rules: seq<Rule>, before: Summary, after: Summary, rule: Rule)
    ensures rule in Raised(rules, before, after) <==> rule in rules && Warns(rule, before, after)
  {
    if rules != [] {
      RaisedMember(rules[1..], before, after, rule);
      assert rules == [rules[0]] + rules[1..];
    }
  }

  /** An evaluation compared with itself warns exactly about the present metrics whose threshold is zero. */
  lemma SelfComparison(t: Thresholds, s: Summary, rule: Rule)
    requires t.Valid() && rule in t.Rules()
    ensures rule in Raised(t.Rules(), s, s) <==> rule.threshold == 0.0 && Get(s, rule.metric).Some?
  {
    RaisedMember(t.Rules(), s, s, rule);
    assert rule.threshold >= 0.0;
  }

  /** Positive thresholds: a comparison and its reverse never raise the same rule. */
  lemma ReverseRaisesOthers(t: Thresholds, before: Summary, after: Summary, rule: Rule)
    requires rule.threshold > 0.0 && rule in Raised(t.Rules(), before, after)
    ensures rule !in Raised(t.Rules(), after, before)
  {
    RaisedMember(t.Rules(), before, after, rule);
    RaisedMember(t.Rules(), after, before, rule);
    NeverBothWays(rule, before, after);
  }

  // ----- When a warning appears, metric by metric -----

  ghost predicate Flagged(t: Thresholds, before: Summary, after: Summary, m: Metric) {
    exists rule :: rule in Raised(t.Rules(), before, after) && rule.metric == m
  }

  /** Both summaries have the metric, and it fell by at least so much. */
  ghost predicate Fell(before: Summary, after: Summary, m: Metric, step: real) {
    Get(before, m).Some? && Get(after, m).Some? && Get(before, m).value - Get(after, m).value >= step
  }

  ghost predicate Rose(before: Summary, after: Summary, m: Metric, step: real) {
    Get(before, m).Some? && Get(after, m).Some? && Get(after, m).value - Get(before, m).value >= step
  }

  /** It rose by at least so great a part of what it was; anything is infinitely more than nothing. */
  ghost predicate Swelled(before: Summary, after: Summary, m: Metric, part: real) {
    && Get(before, m).Some? && Get(after, m).Some?
    && var left, right := Get(before, m).value, Get(after, m).value;
    && (left > 0.0 ==> right - left >= part * left)
    && (left < 0.0 ==> right - left <= part * left)
    && (left == 0.0 ==> right != 0.0 || part <= 0.0)
  }

  lemma Divided(x: real, left: real, part: real)
    ensures left > 0.0 ==> (x / left >= part <==> x >= part * left)
    ensures left < 0.0 ==> (x / left >= part <==> x <= part * left)
  {
    if left != 0.0 {
      var q := x / left;
      assert q * left == x;
      if left > 0.0 {
        Signs(q - part, left);
        assert (q - part) * left == x - part * left;
      } else {
        Signs(q - part, -left);
        assert (q - part) * (-left) == part * left - x;
      }
    }
  }

  lemma Signs(a: real, b: real)
    requires b > 0.0
    ensures a * b >= 0.0 <==> a >= 0.0
  {
  }

  lemma WarnsMeans(rule: Rule, before: Summary, after: Summary)
    ensures rule.direction.Decrease? ==> (Warns(rule, before, after) <==> Fell(before, after, rule.metric, rule.threshold))
    ensures rule.direction.Increase? ==> (Warns(rule, before, after) <==> Rose(before, after, rule.metric, rule.threshold))
    ensures rule.direction.RatioIncrease? ==>
              (Warns(rule, before, after) <==> Swelled(before, after, rule.metric, rule.threshold))
  {
    if rule.direction.RatioIncrease? && Get(before, rule.metric).Some? && Get(after, rule.metric).Some? {
      var left, right := Get(before, rule.metric).value, Get(after, rule.metric).value;
      Divided(right - left, left, rule.threshold);
    }
  }

  lemma FlaggedBy(t: Thresholds, before: Summary, after: Summary, k: nat)
    requires k < 10 == |t.Rules()|
    requires forall i, j :: 0 <= i < j < 10 ==> t.Rules()[i].metric != t.Rules()[j].metric
    ensures Flagged(t, before, after, t.Rules()[k].metric) <==> Warns(t.Rules()[k], before, after)
  {
    var rules := t.Rules();
    RaisedMember(rules, before, after, rules[k]);
    if Flagged(t, before, after, rules[k].metric) {
      var rule :| rule in Raised(rules, before, after) && rule.metric == rules[k].metric;
      RaisedMember(rules, before, after, rule);
      var i :| 0 <= i < |rules| && rules[i] == rule;
      assert i == k;
    }
  }

  lemma RulesApart(t: Thresholds)
    ensures |t.Rules()| == 10 && forall i, j :: 0 <= i < j < 10 ==> t.Rules()[i].metric != t.Rules()[j].metric
  {
  }

  /** The quality metrics warn when they fall, or rise, by their threshold. */
  lemma QualityWarnings(t: Thresholds, before: Summary, after: Summary)
    ensures Flagged(t, before, after, PassRate) <==> Fell(before, after, PassRate, t.passRateDrop)
    ensures Flagged(t, before, after, MeanScore) <==> Fell(before, after, MeanScore, t.meanScoreDrop)
    ensures Flagged(t, before, after, ScoreP10) <==> Fell(before, after, ScoreP10, t.scoreP10Drop)
    ensures Flagged(t, before, after, CitationCoverage) <==> Fell(before, after, CitationCoverage, t.citationDrop)
    ensures Flagged(t, before, after, Abstention) <==> Rose(before, after, Abstention, t.abstentionIncrease)
    ensures Flagged(t, before, after, UnsupportedClaims) <==> Rose(before, after, UnsupportedClaims, t.unsupportedIncrease)
    ensures Flagged(t, before, after, SafetyFailures) <==> Rose(before, after, SafetyFailures, t.safetyIncrease)
  {
    RulesApart(t);
    forall k: nat | k < 10 ensures Flagged(t, before, after, t.Rules()[k].metric) <==> Warns(t.Rules()[k], before, after) {
      FlaggedBy(t, before, after, k);
    }
    forall k: nat | k < 10 ensures t.Rules()[k].direction.Decrease? ==>
      (Warns(t.Rules()[k], before, after) <==> Fell(before, after, t.Rules()[k].metric, t.Rules()[k].threshold))
    {
      WarnsMeans(t.Rules()[k], before, after);
    }
    forall k: nat | k < 10 ensures t.Rules()[k].direction.Increase? ==>
      (Warns(t.Rules()[k], before, after) <==> Rose(before, after, t.Rules()[k].metric, t.Rules()[k].threshold))
    {
      WarnsMeans(t.Rules()[k], before, after);
    }
    assert t.Rules()[0] == Rule(PassRate, Decrease, t.passRateDrop);
    assert t.Rules()[1] == Rule(MeanScore, Decrease, t.meanScoreDrop);
    assert t.Rules()[2] == Rule(ScoreP10, Decrease, t.scoreP10Drop);
    assert t.Rules()[6] == Rule(Abstention, Increase, t.abstentionIncrease);
    assert t.Rules()[7] == Rule(CitationCoverage, Decrease, t.citationDrop);
    assert t.Rules()[8] == Rule(UnsupportedClaims, Increase, t.unsupportedIncrease);
    assert t.Rules()[9] == Rule(SafetyFailures, Increase, t.safetyIncrease);
  }

  /** The cost metrics warn when they rise by their part, and no other metric ever warns. */
  lemma CostWarnings(t: Thresholds, before: Summary, after: Summary)
    ensures Flagged(t, before, after, MeanLatency) <==> Swelled(before, after, MeanLatency, t.latencyIncrease)
    ensures Flagged(t, before, after, MeanTokens) <==> Swelled(before, after, MeanTokens, t.tokenIncrease)
    ensures Flagged(t, before, after, MeanCost) <==> Swelled(before, after, MeanCost, t.costIncrease)
    ensures !Flagged(t, before, after, ScoreP50) && !Flagged(t, before, after, ScoreP90)
  {
    RulesApart(t);
    FlaggedBy(t, before, after, 3);
    FlaggedBy(t, before, after, 4);
    FlaggedBy(t, before, after, 5);
    WarnsMeans(t.Rules()[3], before, after);
    WarnsMeans(t.Rules()[4], before, after);
    WarnsMeans(t.Rules()[5], before, after);
    forall rule | rule in Raised(t.Rules(), before, after) ensures rule.metric != ScoreP50 && rule.metric != ScoreP90 {
      RaisedMember(t.Rules(), before, after, rule);
    }
  }
}
