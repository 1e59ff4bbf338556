/**
 * What the score of a capability is and when it is hidden, refused or offered, told by the words
 * of the request and the descriptor and not by how the selector computes it.
 */
module Scoring {
  import opened Options
  import opened Strings
  import opened Phrases
  import opened Sorting
  import opened Selector

  ghost function Said(fold: string -> string, q: Request): seq<string> { Words(fold(q.intent)) }

  /** The words of trigger k are a run of the words of the request. */
  ghost predicate Fires(fold: string -> string, q: Request, trigger: string) {
    Sublist(Words(fold(trigger)), Said(fold, q))
  }

  /** A hundred for each of the first n triggers that fires, and ten for each of its words. */
  ghost function FromTriggers(fold: string -> string, q: Request, triggers: seq<string>, n: nat): int
    requires n <= |triggers|
  {
    if n == 0 then 0
    else FromTriggers(fold, q, triggers, n - 1)
         + if Fires(fold, q, triggers[n - 1]) then 100 + 10 * |Words(fold(triggers[n - 1]))| else 0
  }

  ghost function Described(fold: string -> string, d: Descriptor): seq<string> {
    Words(fold(d.name + " " + d.description + " " + Join(d.tags)))
  }

  ghost function Shared(fold: string -> string, q: Request, d: Descriptor): set<string> {
    set w | w in Said(fold, q) && w in Described(fold, d)
  }

  /** Priority, pin, triggers, shared words and scope. */
  ghost function Worth(fold: string -> string, q: Request, d: Descriptor): int {
    d.priority + (if d.id in q.pinned then 10_000 else 0) + FromTriggers(fold, q, d.triggers, |d.triggers|)
    + |Shared(fold, q, d)| + (if d.scopes != [] then 25 else 0)
  }

  ghost predicate Permitted(q: Request, d: Descriptor) {
    d.enabled && forall p :: p in d.permissions ==> p in q.decisions && q.decisions[p] != Deny
  }

  ghost predicate AsksFor(q: Request, d: Descriptor, p: string) {
    p in d.permissions && p in q.decisions && q.decisions[p] == Ask
  }

  ghost predicate AsksAny(q: Request, d: Descriptor) {
    exists p :: AsksFor(q, d, p)
  }

  /** Trigger k is the first that fires. */
  ghost predicate FirstFiring(fold: string -> string, q: Request, triggers: seq<string>, k: nat) {
    k < |triggers| && Fires(fold, q, triggers[k]) && forall j :: 0 <= j < k ==> !Fires(fold, q, triggers[j])
  }

  // ----- The parts of the score -----

  lemma TestIsFiring(fold: string -> string, q: Request, trigger: string)
    ensures ContainsPhrase(Normalize(fold, q.intent), Normalize(fold, trigger)) <==> Fires(fold, q, trigger)
    ensures Fires(fold, q, trigger) ==> Normalize(fold, trigger) != ""
    ensures |Words(Normalize(fold, trigger))| == |Words(fold(trigger))|
  {
    PhraseTestIsSublist(fold, q.intent, trigger);
    WordsOfNormal(fold, trigger);
  }

  lemma {:induction false} FromTriggersSplit(fold: string -> string, q: Request, t: string, ts: seq<string>, n: nat)
    requires n <= |ts|
    ensures FromTriggers(fold, q, [t] + ts, n + 1) ==
            (if Fires(fold, q, t) then 100 + 10 * |Words(fold(t))| else 0) + FromTriggers(fold, q, ts, n)
  {
    if n == 0 {
      assert FromTriggers(fold, q, [t] + ts, 0) == 0;
      assert ([t] + ts)[0] == t;
    } else {
      FromTriggersSplit(fold, q, t, ts, n - 1);
      assert ([t] + ts)[n] == ts[n - 1];
    }
  }

  lemma {:induction false} HitsMean(fold: string -> string, q: Request, triggers: seq<string>)
    ensures Hits(fold, Normalize(fold, q.intent), triggers).0 == FromTriggers(fold, q, triggers, |triggers|)
    ensures forall r :: r in Hits(fold, Normalize(fold, q.intent), triggers).1 <==>
      r.Triggered? && r.trigger in triggers && Fires(fold, q, r.trigger)
  {
    if triggers != [] {
      var t, ts := triggers[0], triggers[1..];
      HitsMean(fold, q, ts);
      TestIsFiring(fold, q, t);
      assert triggers == [t] + ts;
      FromTriggersSplit(fold, q, t, ts, |ts|);
    }
  }

  lemma OverlapMeans(fold: string -> string, q: Request, d: Descriptor)
    ensures Overlap(fold, Normalize(fold, q.intent), d) == |Shared(fold, q, d)|
  {
    var text := d.name + " " + d.description + " " + Join(d.tags);
    WordsOfNormal(fold, q.intent);
    WordsOfNormal(fold, text);
    assert WordSet(Said(fold, q)) * WordSet(Described(fold, d)) == Shared(fold, q, d);
  }

  lemma {:induction false} AskingMeansReasons(q: Request, permissions: seq<string>)
    ensures forall r :: r in Asking(q, permissions) <==>
      r.PermissionAsk? && r.permission in permissions && DecisionFor(q, r.permission) == Ask
  {
    if permissions != [] {
      AskingMeansReasons(q, permissions[1..]);
      assert permissions == [permissions[0]] + permissions[1..];
    }
  }

  lemma {:induction false} FirstNegativeMeans(fold: string -> string, q: Request, triggers: seq<string>)
    ensures var found := FirstNegative(fold, Normalize(fold, q.intent), triggers);
      && (found.Some? <==> exists t :: t in triggers && Fires(fold, q, t))
      && (found.Some? ==> exists k: nat :: FirstFiring(fold, q, triggers, k) && triggers[k] == found.value)
  {
    if triggers != [] {
      var rest := triggers[1..];
      TestIsFiring(fold, q, triggers[0]);
      FirstNegativeMeans(fold, q, rest);
      assert triggers == [triggers[0]] + rest;
      if Fires(fold, q, triggers[0]) {
        assert FirstFiring(fold, q, triggers, 0);
      } else if FirstNegative(fold, Normalize(fold, q.intent), rest).Some? {
        var k: nat :| FirstFiring(fold, q, rest, k) && rest[k] == FirstNegative(fold, Normalize(fold, q.intent), rest).value;
        FirstFiringLater(fold, q, triggers, k);
      }
    }
  }

  lemma FirstFiringLater(fold: string -> string, q: Request, triggers: seq<string>, k: nat)
    requires triggers != [] && !Fires(fold, q, triggers[0]) && FirstFiring(fold, q, triggers[1..], k)
    ensures FirstFiring(fold, q, triggers, k + 1) && triggers[k + 1] == triggers[1..][k]
  {
    forall j | 0 <= j < k + 1 ensures !Fires(fold, q, triggers[j]) {
      if j > 0 { assert triggers[j] == triggers[1..][j - 1]; }
    }
  }

  // ----- The judgement -----

  /** Everything there is to know about a capability that is offered. */
  ghost predicate Offered(fold: string -> string, q: Request, d: Descriptor, m: Match) {
    && m.descriptor == d && m.score == Worth(fold, q, d) && (m.requiresApproval <==> AsksAny(q, d))
    && (ProjectPin in m.reasons <==> d.id in q.pinned)
    && (forall t :: Triggered(t) in m.reasons <==> t in d.triggers && Fires(fold, q, t))
    && (forall n :: MetadataOverlap(n) in m.reasons <==> n == |Shared(fold, q, d)| > 0)
    && (PathScopeMatch in m.reasons <==> d.scopes != [])
    && (forall p :: PermissionAsk(p) in m.reasons <==> AsksFor(q, d, p))
  }

  /** A capability that is refused, and the first ground that applies. */
  ghost predicate Rejected(fold: string -> string, q: Request, d: Descriptor, m: Match) {
    && m.descriptor == d && m.score == 0 && |m.reasons| == 1
    && match m.reasons[0]
       case NegativeTrigger(t) =>
         !m.requiresApproval && exists k: nat :: FirstFiring(fold, q, d.negativeTriggers, k) && d.negativeTriggers[k] == t
       case PathScope =>
         !m.requiresApproval && !PathMatches(d.scopes, q.path) && forall t :: t in d.negativeTriggers ==> !Fires(fold, q, t)
       case NotRelevant => (m.requiresApproval <==> AsksAny(q, d)) && Admissible(fold, q, d) && Worth(fold, q, d) <= 0
       case _ => false
  }

  lemma AskingAny(q: Request, d: Descriptor)
    ensures Asking(q, d.permissions) != [] <==> AsksAny(q, d)
  {
    AskingMeans(q, d.permissions);
    if AsksAny(q, d) {
      var p :| AsksFor(q, d, p);
      assert DecisionFor(q, p) == Ask;
    }
    if p :| p in d.permissions && DecisionFor(q, p) == Ask {
      assert AsksFor(q, d, p);
    }
  }

  lemma HiddenMeans(fold: string -> string, q: Request, d: Descriptor)
    ensures Judge(fold, q, d).Hidden? <==> !Permitted(q, d)
  {
  }

  lemma AdmissibleMeans(fold: string -> string, q: Request, d: Descriptor)
    ensures Admissible(fold, q, d) <==>
      && Permitted(q, d) && PathMatches(d.scopes, q.path)
      && FirstNegative(fold, Normalize(fold, q.intent), d.negativeTriggers).None?
  {
    FirstNegativeMeans(fold, q, d.negativeTriggers);
  }

  /** The reasons and the score that the selector puts together for an admissible descriptor. */
  function Total(fold: string -> string, q: Request, d: Descriptor): int {
    d.priority + (if d.id in q.pinned then 10_000 else 0) + Hits(fold, Normalize(fold, q.intent), d.triggers).0
    + Overlap(fold, Normalize(fold, q.intent), d) + (if d.scopes != [] then 25 else 0)
  }

  function Grounds(fold: string -> string, q: Request, d: Descriptor): seq<Reason> {
    var overlap := Overlap(fold, Normalize(fold, q.intent), d);
    (if d.id in q.pinned then [ProjectPin] else []) + Hits(fold, Normalize(fold, q.intent), d.triggers).1
    + (if overlap > 0 then [MetadataOverlap(overlap)] else [])
    + (if d.scopes != [] then [PathScopeMatch] else []) + Asking(q, d.permissions)
  }

  lemma TotalIsWorth(fold: string -> string, q: Request, d: Descriptor)
    ensures Total(fold, q, d) == Worth(fold, q, d)
  {
    HitsMean(fold, q, d.triggers);
    OverlapMeans(fold, q, d);
  }

  lemma JudgedAdmissible(fold: string -> string, q: Request, d: Descriptor)
    requires Permitted(q, d) && PathMatches(d.scopes, q.path)
    requires FirstNegative(fold, Normalize(fold, q.intent), d.negativeTriggers).None?
    ensures Judge(fold, q, d) ==
      if Total(fold, q, d) > 0 then Scored(Match(d, Total(fold, q, d), Grounds(fold, q, d), Asking(q, d.permissions) != []))
      else Refused(Match(d, 0, [NotRelevant], Asking(q, d.permissions) != []))
  {
  }

  lemma JudgedInadmissible(fold: string -> string, q: Request, d: Descriptor)
    requires Permitted(q, d)
    ensures var negative := FirstNegative(fold, Normalize(fold, q.intent), d.negativeTriggers);
      && (negative.Some? ==> Judge(fold, q, d) == Refused(Match(d, 0, [NegativeTrigger(negative.value)], false)))
      && (negative.None? && !PathMatches(d.scopes, q.path) ==> Judge(fold, q, d) == Refused(Match(d, 0, [PathScope], false)))
  {
  }

  lemma GroundsMean(fold: string -> string, q: Request, d: Descriptor, r: Reason)
    ensures r in Grounds(fold, q, d) <==>
      || (r == ProjectPin && d.id in q.pinned)
      || (r.Triggered? && r.trigger in d.triggers && Fires(fold, q, r.trigger))
      || (r == MetadataOverlap(|Shared(fold, q, d)|) && |Shared(fold, q, d)| > 0)
      || (r == PathScopeMatch && d.scopes != [])
      || (r.PermissionAsk? && AsksFor(q, d, r.permission))
  {
    HitsMean(fold, q, d.triggers);
    OverlapMeans(fold, q, d);
    AskingMeansReasons(q, d.permissions);
  }

  lemma GroundsOffer(fold: string -> string, q: Request, d: Descriptor, m: Match)
    requires m == Match(d, Total(fold, q, d), Grounds(fold, q, d), Asking(q, d.permissions) != [])
    ensures Offered(fold, q, d, m)
  {
    TotalIsWorth(fold, q, d);
    AskingAny(q, d);
    forall r ensures r in m.reasons <==>
      || (r == ProjectPin && d.id in q.pinned)
      || (r.Triggered? && r.trigger in d.triggers && Fires(fold, q, r.trigger))
      || (r == MetadataOverlap(|Shared(fold, q, d)|) && |Shared(fold, q, d)| > 0)
      || (r == PathScopeMatch && d.scopes != [])
      || (r.PermissionAsk? && AsksFor(q, d, r.permission))
    {
      GroundsMean(fold, q, d, r);
    }
  }

  /**
   * A descriptor is hidden exactly when it is not permitted, and offered exactly when it is
   * admissible and of positive worth; otherwise it is refused on the first ground that applies.
   */
  lemma JudgementMeans(fold: string -> string, q: Request, d: Descriptor)
    ensures Judge(fold, q, d).Hidden? <==> !Permitted(q, d)
    ensures Judge(fold, q, d).Scored? <==> Admissible(fold, q, d) && Worth(fold, q, d) > 0
    ensures Judge(fold, q, d).Scored? ==> Offered(fold, q, d, Judge(fold, q, d).match_)
    ensures Judge(fold, q, d).Refused? ==> Rejected(fold, q, d, Judge(fold, q, d).match_)
  {
    HiddenMeans(fold, q, d);
    AdmissibleMeans(fold, q, d);
    if Admissible(fold, q, d) {
      JudgedAdmissible(fold, q, d);
      TotalIsWorth(fold, q, d);
      AskingAny(q, d);
      GroundsOffer(fold, q, d, Match(d, Total(fold, q, d), Grounds(fold, q, d), Asking(q, d.permissions) != []));
    } else if Permitted(q, d) {
      JudgedInadmissible(fold, q, d);
      FirstNegativeMeans(fold, q, d.negativeTriggers);
    }
  }

  /** Pinning a capability that was not pinned raises its worth by exactly ten thousand. */
  lemma PinningRaises(fold: string -> string, q: Request, d: Descriptor)
    requires d.id !in q.pinned
    ensures Worth(fold, q.(pinned := q.pinned + {d.id}), d) == Worth(fold, q, d) + 10_000
  {
    SameTriggers(fold, q, q.(pinned := q.pinned + {d.id}), d.triggers, |d.triggers|);
    assert Shared(fold, q.(pinned := q.pinned + {d.id}), d) == Shared(fold, q, d);
  }

  lemma {:induction false} SameTriggers(fold: string -> string, q: Request, p: Request, triggers: seq<string>, n: nat)
    requires q.intent == p.intent && n <= |triggers|
    ensures FromTriggers(fold, q, triggers, n) == FromTriggers(fold, p, triggers, n)
  {
    if n > 0 { SameTriggers(fold, q, p, triggers, n - 1); }
  }

  // ----- The selection -----

  lemma {:induction false} ScoredHas(judge: Descriptor -> Judgement, ds: seq<Descriptor>, d: Descriptor)
    requires d in ds && judge(d).Scored?
    ensures judge(d).match_ in ScoredOf(judge, ds)
  {
    JudgeStep(judge, ds);
    if d != ds[0] {
      ScoredHas(judge, ds[1..], d);
    }
  }

  lemma {:induction false} RefusedFrom(judge: Descriptor -> Judgement, ds: seq<Descriptor>, m: Match) returns (d: Descriptor)
    requires m in RefusedOf(judge, ds)
    ensures d in ds && judge(d) == Refused(m)
  {
    JudgeStep(judge, ds);
    if judge(ds[0]) == Refused(m) {
      d := ds[0];
    } else {
      d := RefusedFrom(judge, ds[1..], m);
    }
  }

  /** A higher score comes first, and among equal scores the smaller id. */
  ghost predicate Outranks(a: Match, b: Match) {
    a.score > b.score || (a.score == b.score && Le(a.descriptor.id, b.descriptor.id))
  }

  ghost predicate InRank(cs: seq<Match>, d: Descriptor) {
    exists m :: m in cs && m.descriptor == d
  }

  ghost predicate RankedRightly(fold: string -> string, q: Request, ds: seq<Descriptor>, m: Match) {
    m.descriptor in ds && Admissible(fold, q, m.descriptor) && m.score > 0 && Offered(fold, q, m.descriptor, m)
  }

  /** The ranked candidates are the admissible descriptors of positive worth, each with that worth, in rank order. */
  lemma RankedMeans(fold: string -> string, q: Request, ds: seq<Descriptor>)
    ensures var cs := Ranked(Judging(fold, q), ds);
      && (forall d :: d in ds && Admissible(fold, q, d) && Worth(fold, q, d) > 0 ==> InRank(cs, d))
      && (forall m :: m in cs ==> RankedRightly(fold, q, ds, m))
      && (forall i, j :: 0 <= i < j < |cs| ==> Outranks(cs[i], cs[j]))
  {
    var judge, all := Judging(fold, q), Sort(ds, ById);
    var cs := Ranked(judge, ds);
    OrdersAreTotal();
    SortSorted(ds, ById);
    SortSorted(ScoredOf(judge, all), ByRank);
    forall d | d in ds && Admissible(fold, q, d) && Worth(fold, q, d) > 0 ensures InRank(cs, d) {
      RankedHas(fold, q, ds, d);
    }
    forall m | m in cs ensures RankedRightly(fold, q, ds, m) {
      RankedFrom(fold, q, ds, m);
    }
    forall i, j | 0 <= i < j < |cs| ensures Outranks(cs[i], cs[j]) {
      assert ByRank(cs[i], cs[j]);
    }
  }

  lemma RankedHas(fold: string -> string, q: Request, ds: seq<Descriptor>, d: Descriptor)
    requires d in ds && Admissible(fold, q, d) && Worth(fold, q, d) > 0
    ensures InRank(Ranked(Judging(fold, q), ds), d)
  {
    var judge, all := Judging(fold, q), Sort(ds, ById);
    OrdersAreTotal();
    SortSorted(ds, ById);
    SortSorted(ScoredOf(judge, all), ByRank);
    JudgementMeans(fold, q, d);
    SameMembers(all, ds, d);
    ScoredHas(judge, all, d);
    SameMembers(Ranked(judge, ds), ScoredOf(judge, all), judge(d).match_);
  }

  lemma RankedFrom(fold: string -> string, q: Request, ds: seq<Descriptor>, m: Match)
    requires m in Ranked(Judging(fold, q), ds)
    ensures RankedRightly(fold, q, ds, m)
  {
    var judge, all := Judging(fold, q), Sort(ds, ById);
    OrdersAreTotal();
    SortSorted(ds, ById);
    SortSorted(ScoredOf(judge, all), ByRank);
    SameMembers(Ranked(judge, ds), ScoredOf(judge, all), m);
    var d := ScoredFrom(judge, all, m);
    SameMembers(all, ds, d);
    JudgementMeans(fold, q, d);
  }

  /**
   * Candidate i was passed over for the limit if as many were taken before it, and otherwise
   * because with what was taken before it, it would cost too much.
   */
  ghost predicate PassedRightly(cs: seq<Match>, picks: seq<bool>, budget: int, room: Option<nat>, i: nat, passed: seq<Match>)
    requires |picks| == |cs| && i < |cs|
  {
    var full := room == Some(Count(picks[..i]));
    && cs[i].(reasons := [if full then SelectionLimit else ContextBudget]) in passed
    && (!full ==> Cost(Taken(cs[..i], picks[..i])) + cs[i].descriptor.cost > budget)
  }

  lemma PassedAfterTaken(cs: seq<Match>, picks: seq<bool>, budget: int, room: Option<nat>, i: nat, passed: seq<Match>)
    requires |picks| == |cs| && 0 < i < |cs| && picks[0] && room != Some(0)
    requires PassedRightly(cs[1..], picks[1..], budget - cs[0].descriptor.cost, Room(room, 1), i - 1, passed)
    ensures PassedRightly(cs, picks, budget, room, i, passed)
  {
    TakePrefix(cs, picks, i);
    assert cs[1..][i - 1] == cs[i];
  }

  lemma PassedAfterSkipped(cs: seq<Match>, picks: seq<bool>, budget: int, room: Option<nat>, i: nat, passed: seq<Match>,
                           more: seq<Match>)
    requires |picks| == |cs| && 0 < i < |cs| && !picks[0]
    requires PassedRightly(cs[1..], picks[1..], budget, room, i - 1, passed)
    requires forall m :: m in passed ==> m in more
    ensures PassedRightly(cs, picks, budget, room, i, more)
  {
    TakePrefix(cs, picks, i);
    assert cs[1..][i - 1] == cs[i];
  }

  lemma {:induction false} PassedFor(cs: seq<Match>, budget: int, room: Option<nat>, i: nat)
    requires i < |cs| && !Choose(cs, budget, room)[i]
    ensures PassedRightly(cs, Choose(cs, budget, room), budget, room, i, PassedOver(cs, budget, room))
  {
    var picks := Choose(cs, budget, room);
    PassedStep(cs, budget, room);
    if i == 0 {
      assert picks[..0] == [] && cs[..0] == [];
    } else if picks[0] {
      var rest, more := budget - cs[0].descriptor.cost, Room(room, 1);
      assert picks[1..] == Choose(cs[1..], rest, more);
      PassedFor(cs[1..], rest, more, i - 1);
      PassedAfterTaken(cs, picks, budget, room, i, PassedOver(cs[1..], rest, more));
    } else {
      assert picks[1..] == Choose(cs[1..], budget, room);
      PassedFor(cs[1..], budget, room, i - 1);
      PassedAfterSkipped(cs, picks, budget, room, i, PassedOver(cs[1..], budget, room), PassedOver(cs, budget, room));
    }
  }

  lemma TakePrefix(cs: seq<Match>, picks: seq<bool>, i: nat)
    requires |cs| == |picks| && 0 < i <= |cs|
    ensures Taken(cs[..i], picks[..i]) == (if picks[0] then [cs[0]] else []) + Taken(cs[1..][..i - 1], picks[1..][..i - 1])
    ensures Count(picks[..i]) == (if picks[0] then 1 else 0) + Count(picks[1..][..i - 1])
    ensures Cost(Taken(cs[..i], picks[..i])) ==
            (if picks[0] then cs[0].descriptor.cost else 0) + Cost(Taken(cs[1..][..i - 1], picks[1..][..i - 1]))
  {
    assert cs[..i][1..] == cs[1..][..i - 1] && picks[..i][1..] == picks[1..][..i - 1];
    var tail := Taken(cs[1..][..i - 1], picks[1..][..i - 1]);
    assert ([cs[0]] + tail)[1..] == tail && [] + tail == tail;
  }

  /** Whatever is selected is indexed, admissible, of positive worth, and described by its match. */
  lemma SelectedMeans(fold: string -> string, q: Request, ds: seq<Descriptor>, m: Match)
    requires m in Select(fold, q, ds).selected
    ensures RankedRightly(fold, q, ds, m)
  {
    var cs := Ranked(Judging(fold, q), ds);
    TakenFrom(cs, Choose(cs, q.budget, q.limit), m);
    RankedFrom(fold, q, ds, m);
  }

  ghost predicate Concealed(q: Request, ds: seq<Descriptor>, id: string) {
    exists d :: d in ds && !Permitted(q, d) && d.id == id
  }

  lemma {:induction false} HiddenOfMeans(fold: string -> string, q: Request, ds: seq<Descriptor>, id: string)
    ensures id in HiddenOf(Judging(fold, q), ds) <==> Concealed(q, ds, id)
  {
    if ds != [] {
      HiddenOfMeans(fold, q, ds[1..], id);
      JudgeStep(Judging(fold, q), ds);
      HiddenMeans(fold, q, ds[0]);
      assert ds == [ds[0]] + ds[1..];
    }
  }

  /** The hidden ids are those of the descriptors that are not permitted. */
  lemma HiddenListMeans(fold: string -> string, q: Request, ds: seq<Descriptor>, id: string)
    ensures id in Select(fold, q, ds).hidden <==> Concealed(q, ds, id)
  {
    var all, hidden := Sort(ds, ById), HiddenOf(Judging(fold, q), Sort(ds, ById));
    OrdersAreTotal();
    SortSorted(ds, ById);
    SortSorted(hidden, Le);
    SameMembers(Sort(hidden, Le), hidden, id);
    HiddenOfMeans(fold, q, all, id);
    forall d ensures d in all <==> d in ds {
      SameMembers(all, ds, d);
    }
  }

  /** Whatever is rejected is refused on the ground given, or was ranked and passed over. */
  lemma RejectedMeans(fold: string -> string, q: Request, ds: seq<Descriptor>, m: Match)
    requires m in Select(fold, q, ds).rejected
    ensures (m.descriptor in ds && Rejected(fold, q, m.descriptor, m)) ||
            m in PassedOver(Ranked(Judging(fold, q), ds), q.budget, q.limit)
  {
    var judge, all, cs := Judging(fold, q), Sort(ds, ById), Ranked(Judging(fold, q), ds);
    var refused, passed := RefusedOf(judge, all), PassedOver(cs, q.budget, q.limit);
    OrdersAreTotal();
    SortSorted(refused + passed, MatchById);
    SameMembers(Select(fold, q, ds).rejected, refused + passed, m);
    if m in refused {
      var d := RefusedFrom(judge, all, m);
      SortSorted(ds, ById);
      SameMembers(all, ds, d);
      JudgementMeans(fold, q, d);
    }
  }

  /** The lists come in id order, and the reported cost is the sum of the selected costs. */
  lemma ResultOrdered(fold: string -> string, q: Request, ds: seq<Descriptor>)
    ensures var r := Select(fold, q, ds);
      && (forall i, j :: 0 <= i < j < |r.rejected| ==> Le(r.rejected[i].descriptor.id, r.rejected[j].descriptor.id))
      && (forall i, j :: 0 <= i < j < |r.hidden| ==> Le(r.hidden[i], r.hidden[j]))
      && r.cost == Cost(r.selected) <= q.budget
  {
    var judge, all, cs := Judging(fold, q), Sort(ds, ById), Ranked(Judging(fold, q), ds);
    OrdersAreTotal();
    SortSorted(RefusedOf(judge, all) + PassedOver(cs, q.budget, q.limit), MatchById);
    SortSorted(HiddenOf(judge, all), Le);
    GreedyIsFeasible(cs, q.budget, q.limit);
    var r := Select(fold, q, ds);
    forall i, j | 0 <= i < j < |r.rejected| ensures Le(r.rejected[i].descriptor.id, r.rejected[j].descriptor.id) {
      assert MatchById(r.rejected[i], r.rejected[j]);
    }
  }
}
