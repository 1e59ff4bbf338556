/**
 * Capability selection: hide what is denied, score what remains, then choose greedily under a
 * context budget and a count limit.
 */
module Selector {
  import opened Options
  import opened Strings
  import opened Phrases
  import opened Sorting

  datatype Decision = Allow | Ask | Deny

  datatype Descriptor = Descriptor(id: string, name: string, description: string, triggers: seq<string>,
                                   negativeTriggers: seq<string>, tags: seq<string>, permissions: seq<string>,
                                   scopes: seq<string>, cost: nat, priority: int, enabled: bool)

  datatype Request = Request(intent: string, pinned: set<string>, path: Option<string>,
                             decisions: map<string, Decision>, budget: nat, limit: Option<nat>)

  datatype Reason =
    | NegativeTrigger(trigger: string) | PathScope | ProjectPin | Triggered(trigger: string)
    | MetadataOverlap(words: nat) | PathScopeMatch | PermissionAsk(permission: string)
    | NotRelevant | SelectionLimit | ContextBudget

  datatype Match = Match(descriptor: Descriptor, score: int, reasons: seq<Reason>, requiresApproval: bool)

  datatype Result = Result(selected: seq<Match>, rejected: seq<Match>, hidden: seq<string>, cost: nat)

  // ----- Judging one descriptor -----

  datatype Judgement = Hidden | Refused(match_: Match) | Scored(match_: Match)

  function DecisionFor(q: Request, permission: string): Decision {
    if permission in q.decisions then q.decisions[permission] else Deny
  }

  function FirstNegative(fold: string -> string, intent: string, triggers: seq<string>): Option<string> {
    if triggers == [] then None
    else if ContainsPhrase(intent, Normalize(fold, triggers[0])) then Some(triggers[0])
    else FirstNegative(fold, intent, triggers[1..])
  }

  function Hits(fold: string -> string, intent: string, triggers: seq<string>): (int, seq<Reason>) {
    if triggers == [] then (0, [])
    else
      var (score, reasons) := Hits(fold, intent, triggers[1..]);
      var normalized := Normalize(fold, triggers[0]);
      if normalized != "" && ContainsPhrase(intent, normalized)
      then (100 + |Words(normalized)| * 10 + score, [Triggered(triggers[0])] + reasons)
      else (score, reasons)
  }

  function WordSet(ws: seq<string>): set<string> { set i | 0 <= i < |ws| :: ws[i] }

  function Overlap(fold: string -> string, intent: string, d: Descriptor): nat {
    |WordSet(Words(intent)) * WordSet(Words(Normalize(fold, d.name + " " + d.description + " " + Join(d.tags))))|
  }

  function Asking(q: Request, permissions: seq<string>): seq<Reason> {
    if permissions == [] then []
    else (if DecisionFor(q, permissions[0]) == Ask then [PermissionAsk(permissions[0])] else [])
         + Asking(q, permissions[1..])
  }

  function Judge(fold: string -> string, q: Request, d: Descriptor): Judgement {
    var intent := Normalize(fold, q.intent);
    if !d.enabled || exists p :: p in d.permissions && DecisionFor(q, p) == Deny then Hidden
    else
      var negative := FirstNegative(fold, intent, d.negativeTriggers);
      if negative.Some? then Refused(Match(d, 0, [NegativeTrigger(negative.value)], false))
      else if !PathMatches(d.scopes, q.path) then Refused(Match(d, 0, [PathScope], false))
      else
        var (hits, hitReasons) := Hits(fold, intent, d.triggers);
        var overlap := Overlap(fold, intent, d);
        var asking := Asking(q, d.permissions);
        var score := d.priority + (if d.id in q.pinned then 10_000 else 0) + hits + overlap
                     + (if d.scopes != [] then 25 else 0);
        var reasons := (if d.id in q.pinned then [ProjectPin] else []) + hitReasons
                       + (if overlap > 0 then [MetadataOverlap(overlap)] else [])
                       + (if d.scopes != [] then [PathScopeMatch] else []) + asking;
        if score > 0 then Scored(Match(d, score, reasons, asking != []))
        else Refused(Match(d, 0, [NotRelevant], asking != []))
  }

  function Judging(fold: string -> string, q: Request): Descriptor -> Judgement {
    d => Judge(fold, q, d)
  }

  /** A judgement is always about the descriptor it was asked for. */
  ghost predicate AboutItself(judge: Descriptor -> Judgement) {
    forall d :: judge(d).Hidden? || judge(d).match_.descriptor == d
  }

  // ----- The orders used for sorting -----

  predicate ById(a: Descriptor, b: Descriptor) { Le(a.id, b.id) }

  predicate MatchById(a: Match, b: Match) { Le(a.descriptor.id, b.descriptor.id) }

  predicate ByRank(a: Match, b: Match) {
    a.score > b.score || (a.score == b.score && Le(a.descriptor.id, b.descriptor.id))
  }

  lemma OrdersAreTotal()
    ensures TotalPreorder(ById) && TotalPreorder(MatchById) && TotalPreorder(ByRank) && TotalPreorder(Le)
  {
    forall x: string, y: string ensures Le(x, y) || Le(y, x) { LeTotal(x, y); }
    forall x: string, y: string, z: string | Le(x, y) && Le(y, z) ensures Le(x, z) { LeTransitive(x, y, z); }
  }

  // ----- The three lists, and the greedy choice -----

  function HiddenOf(judge: Descriptor -> Judgement, ds: seq<Descriptor>): seq<string> {
    if ds == [] then []
    else (if judge(ds[0]).Hidden? then [ds[0].id] else []) + HiddenOf(judge, ds[1..])
  }

  function RefusedOf(judge: Descriptor -> Judgement, ds: seq<Descriptor>): seq<Match> {
    if ds == [] then []
    else (match judge(ds[0]) case Refused(m) => [m] case _ => []) + RefusedOf(judge, ds[1..])
  }

  function ScoredOf(judge: Descriptor -> Judgement, ds: seq<Descriptor>): seq<Match> {
    if ds == [] then []
    else (match judge(ds[0]) case Scored(m) => [m] case _ => []) + ScoredOf(judge, ds[1..])
  }

  function Room(limit: Option<nat>, used: nat): Option<nat> {
    if limit.None? then None else if used <= limit.value then Some(limit.value - used) else Some(0)
  }

  /** For each candidate in rank order: taken or not, given the budget and room still left. */
  function Choose(cs: seq<Match>, budget: int, room: Option<nat>): (picks: seq<bool>)
    ensures |picks| == |cs|
  {
    if cs == [] then []
    else if room == Some(0) || cs[0].descriptor.cost > budget then [false] + Choose(cs[1..], budget, room)
    else [true] + Choose(cs[1..], budget - cs[0].descriptor.cost, Room(room, 1))
  }

  function Taken(cs: seq<Match>, picks: seq<bool>): seq<Match>
    requires |cs| == |picks|
  {
    if cs == [] then [] else (if picks[0] then [cs[0]] else []) + Taken(cs[1..], picks[1..])
  }

  /** The candidates passed over, each with the reason that applied at its turn. */
  function PassedOver(cs: seq<Match>, budget: int, room: Option<nat>): seq<Match> {
    if cs == [] then []
    else if room == Some(0) then [cs[0].(reasons := [SelectionLimit])] + PassedOver(cs[1..], budget, room)
    else if cs[0].descriptor.cost > budget then [cs[0].(reasons := [ContextBudget])] + PassedOver(cs[1..], budget, room)
    else PassedOver(cs[1..], budget - cs[0].descriptor.cost, Room(room, 1))
  }

  function Cost(cs: seq<Match>): nat {
    if cs == [] then 0 else cs[0].descriptor.cost + Cost(cs[1..])
  }

  function Ranked(judge: Descriptor -> Judgement, ds: seq<Descriptor>): seq<Match> {
    Sort(ScoredOf(judge, Sort(ds, ById)), ByRank)
  }

  /** Placing an index under given judgements, budget and limit. */
  function Place(judge: Descriptor -> Judgement, budget: nat, limit: Option<nat>, ds: seq<Descriptor>): Result {
    var all := Sort(ds, ById);
    var cs := Ranked(judge, ds);
    var selected := Taken(cs, Choose(cs, budget, limit));
    Result(selected, Sort(RefusedOf(judge, all) + PassedOver(cs, budget, limit), MatchById),
           Sort(HiddenOf(judge, all), Le), Cost(selected))
  }

  /** What the selector returns for an index holding ds. */
  function Select(fold: string -> string, q: Request, ds: seq<Descriptor>): Result {
    Place(Judging(fold, q), q.budget, q.limit, ds)
  }

  // ----- The index and the selection as they are computed -----

  predicate DistinctIds(ds: seq<Descriptor>) {
    forall i, j :: 0 <= i < j < |ds| ==> ds[i].id != ds[j].id
  }

  /** An insertion-ordered dictionary of descriptors by id; a repeated id is refused. */
  method BuildIndex(ds: seq<Descriptor>) returns (index: Option<seq<Descriptor>>)
    ensures index.Some? <==> DistinctIds(ds)
    ensures index.Some? ==> index.value == ds
  {
    var indexed: seq<Descriptor> := [];
    var ids: set<string> := {};
    for i := 0 to |ds|
      invariant indexed == ds[..i] && DistinctIds(indexed)
      invariant forall id :: id in ids <==> exists k :: 0 <= k < i && ds[k].id == id
    {
      if ds[i].id in ids {
        return None;
      }
      indexed := indexed + [ds[i]];
      ids := ids + {ds[i].id};
    }
    return Some(indexed);
  }

  lemma RoomLess(room: Option<nat>, used: nat)
    requires Room(room, used) != Some(0)
    ensures Room(Room(room, used), 1) == Room(room, used + 1)
  {
  }

  lemma {:induction false} CostAppend(a: seq<Match>, m: Match)
    ensures Cost(a + [m]) == Cost(a) + m.descriptor.cost
  {
    if a != [] {
      assert (a + [m])[1..] == a[1..] + [m];
      CostAppend(a[1..], m);
    }
  }

  lemma JudgeStep(judge: Descriptor -> Judgement, ds: seq<Descriptor>)
    requires ds != []
    ensures HiddenOf(judge, ds) == (if judge(ds[0]).Hidden? then [ds[0].id] else []) + HiddenOf(judge, ds[1..])
    ensures RefusedOf(judge, ds) ==
            (if judge(ds[0]).Refused? then [judge(ds[0]).match_] else []) + RefusedOf(judge, ds[1..])
    ensures ScoredOf(judge, ds) ==
            (if judge(ds[0]).Scored? then [judge(ds[0]).match_] else []) + ScoredOf(judge, ds[1..])
  {
  }

  method JudgeAll(judge: Descriptor -> Judgement, all: seq<Descriptor>)
    returns (hidden: seq<string>, refused: seq<Match>, scored: seq<Match>)
    ensures hidden == HiddenOf(judge, all) && refused == RefusedOf(judge, all) && scored == ScoredOf(judge, all)
  {
    hidden, refused, scored := [], [], [];
    for i := 0 to |all|
      invariant hidden + HiddenOf(judge, all[i..]) == HiddenOf(judge, all)
      invariant refused + RefusedOf(judge, all[i..]) == RefusedOf(judge, all)
      invariant scored + ScoredOf(judge, all[i..]) == ScoredOf(judge, all)
    {
      assert all[i..][1..] == all[i + 1..];
      JudgeStep(judge, all[i..]);
      match judge(all[i]) {
        case Hidden =>
          Carry(hidden, [all[i].id], HiddenOf(judge, all[i + 1..]), HiddenOf(judge, all));
          hidden := hidden + [all[i].id];
        case Refused(m) =>
          Carry(refused, [m], RefusedOf(judge, all[i + 1..]), RefusedOf(judge, all));
          refused := refused + [m];
        case Scored(m) =>
          Carry(scored, [m], ScoredOf(judge, all[i + 1..]), ScoredOf(judge, all));
          scored := scored + [m];
      }
    }
  }

  method SelectCapabilities(fold: string -> string, index: seq<Descriptor>, q: Request) returns (r: Result)
    ensures r == Select(fold, q, index)
  {
    var hidden, rejected, candidates := JudgeAll(Judging(fold, q), Sort(index, ById));
    candidates := Sort(candidates, ByRank);
    var selected, passed, spent := GreedyLoop(candidates, q.budget, q.limit);
    r := Result(selected, Sort(rejected + passed, MatchById), Sort(hidden, Le), spent);
  }

  lemma ChooseStep(cs: seq<Match>, budget: int, room: Option<nat>)
    requires cs != []
    ensures Taken(cs, Choose(cs, budget, room)) ==
            if room == Some(0) || cs[0].descriptor.cost > budget
            then Taken(cs[1..], Choose(cs[1..], budget, room))
            else [cs[0]] + Taken(cs[1..], Choose(cs[1..], budget - cs[0].descriptor.cost, Room(room, 1)))
  {
    var picks := Choose(cs, budget, room);
    if picks[0] {
      assert picks[1..] == Choose(cs[1..], budget - cs[0].descriptor.cost, Room(room, 1));
    } else {
      assert picks[1..] == Choose(cs[1..], budget, room);
    }
  }

  /** The loop's state and what remains to be done add up to the goal. */
  ghost predicate OnCourse(cs: seq<Match>, rest: seq<Match>, budget: nat, limit: Option<nat>,
                           selected: seq<Match>, passed: seq<Match>, spent: nat) {
    && spent == Cost(selected) && (limit.Some? ==> |selected| <= limit.value)
    && var room := Room(limit, |selected|);
    && selected + Taken(rest, Choose(rest, budget - spent, room)) == Taken(cs, Choose(cs, budget, limit))
    && passed + PassedOver(rest, budget - spent, room) == PassedOver(cs, budget, limit)
  }

  function Why(room: Option<nat>): Reason {
    if room == Some(0) then SelectionLimit else ContextBudget
  }

  lemma PassedStep(cs: seq<Match>, budget: int, room: Option<nat>)
    requires cs != []
    ensures PassedOver(cs, budget, room) ==
            if room == Some(0) || cs[0].descriptor.cost > budget
            then [cs[0].(reasons := [Why(room)])] + PassedOver(cs[1..], budget, room)
            else PassedOver(cs[1..], budget - cs[0].descriptor.cost, Room(room, 1))
  {
  }

  lemma Carry<T>(done: seq<T>, one: seq<T>, rest: seq<T>, goal: seq<T>)
    requires done + (one + rest) == goal
    ensures done + one + rest == goal
  {
  }

  lemma PassKeepsCourse(cs: seq<Match>, rest: seq<Match>, budget: nat, limit: Option<nat>,
                        selected: seq<Match>, passed: seq<Match>, spent: nat)
    requires OnCourse(cs, rest, budget, limit, selected, passed, spent) && rest != []
    requires Room(limit, |selected|) == Some(0) || rest[0].descriptor.cost > budget - spent
    ensures OnCourse(cs, rest[1..], budget, limit, selected,
                     passed + [rest[0].(reasons := [Why(Room(limit, |selected|))])], spent)
  {
    var room := Room(limit, |selected|);
    ChooseStep(rest, budget - spent, room);
    PassedStep(rest, budget - spent, room);
    Carry(passed, [rest[0].(reasons := [Why(room)])], PassedOver(rest[1..], budget - spent, room),
          PassedOver(cs, budget, limit));
  }

  lemma TakeKeepsCourse(cs: seq<Match>, rest: seq<Match>, budget: nat, limit: Option<nat>,
                        selected: seq<Match>, passed: seq<Match>, spent: nat)
    requires OnCourse(cs, rest, budget, limit, selected, passed, spent) && rest != []
    requires Room(limit, |selected|) != Some(0) && rest[0].descriptor.cost <= budget - spent
    ensures OnCourse(cs, rest[1..], budget, limit, selected + [rest[0]], passed, spent + rest[0].descriptor.cost)
  {
    var room, cost := Room(limit, |selected|), rest[0].descriptor.cost;
    ChooseStep(rest, budget - spent, room);
    PassedStep(rest, budget - spent, room);
    RoomLess(limit, |selected|);
    CostAppend(selected, rest[0]);
    assert budget - spent - cost == budget - (spent + cost);
    Carry(selected, [rest[0]], Taken(rest[1..], Choose(rest[1..], budget - spent - cost, Room(room, 1))),
          Taken(cs, Choose(cs, budget, limit)));
  }

  method GreedyLoop(cs: seq<Match>, budget: nat, limit: Option<nat>)
    returns (selected: seq<Match>, passed: seq<Match>, spent: nat)
    ensures selected == Taken(cs, Choose(cs, budget, limit))
    ensures passed == PassedOver(cs, budget, limit)
    ensures spent == Cost(selected)
  {
    selected, passed, spent := [], [], 0;
    for i := 0 to |cs|
      invariant OnCourse(cs, cs[i..], budget, limit, selected, passed, spent)
    {
      assert cs[i..][1..] == cs[i + 1..];
      if limit.Some? && |selected| >= limit.value {
        PassKeepsCourse(cs, cs[i..], budget, limit, selected, passed, spent);
        passed := passed + [Match(cs[i].descriptor, cs[i].score, [SelectionLimit], cs[i].requiresApproval)];
      } else if spent + cs[i].descriptor.cost > budget {
        PassKeepsCourse(cs, cs[i..], budget, limit, selected, passed, spent);
        passed := passed + [Match(cs[i].descriptor, cs[i].score, [ContextBudget], cs[i].requiresApproval)];
      } else {
        TakeKeepsCourse(cs, cs[i..], budget, limit, selected, passed, spent);
        selected := selected + [cs[i]];
        spent := spent + cs[i].descriptor.cost;
      }
    }
  }

  // ----- The choice is the lexicographically greatest feasible one -----

  function Count(picks: seq<bool>): nat {
    if picks == [] then 0 else (if picks[0] then 1 else 0) + Count(picks[1..])
  }

  ghost predicate Feasible(cs: seq<Match>, picks: seq<bool>, budget: int, room: Option<nat>) {
    |picks| == |cs| && Cost(Taken(cs, picks)) <= budget && (room.Some? ==> Count(picks) <= room.value)
  }

  /** At the first candidate on which the two choices differ, a takes it and b does not. */
  ghost predicate LexAtLeast(a: seq<bool>, b: seq<bool>)
    requires |a| == |b|
  {
    a == [] || (a[0] && !b[0]) || (a[0] == b[0] && LexAtLeast(a[1..], b[1..]))
  }

  lemma {:induction false} GreedyIsFeasible(cs: seq<Match>, budget: int, room: Option<nat>)
    requires budget >= 0
    ensures Feasible(cs, Choose(cs, budget, room), budget, room)
  {
    if cs != [] {
      var picks := Choose(cs, budget, room);
      if picks[0] {
        GreedyIsFeasible(cs[1..], budget - cs[0].descriptor.cost, Room(room, 1));
        assert picks[1..] == Choose(cs[1..], budget - cs[0].descriptor.cost, Room(room, 1));
        assert Taken(cs, picks)[1..] == Taken(cs[1..], picks[1..]);
      } else {
        GreedyIsFeasible(cs[1..], budget, room);
        assert picks[1..] == Choose(cs[1..], budget, room);
        assert Taken(cs, picks) == Taken(cs[1..], picks[1..]);
      }
    }
  }

  lemma {:induction false} GreedyIsLexGreatest(cs: seq<Match>, budget: int, room: Option<nat>, picks: seq<bool>)
    requires Feasible(cs, picks, budget, room)
    ensures LexAtLeast(Choose(cs, budget, room), picks)
  {
    if cs != [] {
      var mine := Choose(cs, budget, room);
      if picks[0] {
        assert Taken(cs, picks)[1..] == Taken(cs[1..], picks[1..]);
        GreedyIsLexGreatest(cs[1..], budget - cs[0].descriptor.cost, Room(room, 1), picks[1..]);
        assert mine[1..] == Choose(cs[1..], budget - cs[0].descriptor.cost, Room(room, 1));
      } else if !mine[0] {
        assert Taken(cs, picks) == Taken(cs[1..], picks[1..]);
        GreedyIsLexGreatest(cs[1..], budget, room, picks[1..]);
        assert mine[1..] == Choose(cs[1..], budget, room);
      }
    }
  }

  /** Among all choices within budget and limit, the selection is greatest in rank order. */
  lemma SelectionIsLexGreatest(fold: string -> string, q: Request, ds: seq<Descriptor>, picks: seq<bool>)
    requires Feasible(Ranked(Judging(fold, q), ds), picks, q.budget, q.limit)
    ensures var cs := Ranked(Judging(fold, q), ds);
      && Sorted(cs, ByRank) && multiset(cs) == multiset(ScoredOf(Judging(fold, q), Sort(ds, ById)))
      && Select(fold, q, ds).selected == Taken(cs, Choose(cs, q.budget, q.limit))
      && Feasible(cs, Choose(cs, q.budget, q.limit), q.budget, q.limit)
      && LexAtLeast(Choose(cs, q.budget, q.limit), picks)
  {
    var cs := Ranked(Judging(fold, q), ds);
    OrdersAreTotal();
    SortSorted(ScoredOf(Judging(fold, q), Sort(ds, ById)), ByRank);
    GreedyIsFeasible(cs, q.budget, q.limit);
    GreedyIsLexGreatest(cs, q.budget, q.limit, picks);
  }

  // ----- Every descriptor is placed exactly once -----

  function Ids(ms: seq<Match>): seq<string> {
    if ms == [] then [] else [ms[0].descriptor.id] + Ids(ms[1..])
  }

  function IndexIds(ds: seq<Descriptor>): seq<string> {
    if ds == [] then [] else [ds[0].id] + IndexIds(ds[1..])
  }

  lemma {:induction false} IdsAppend(a: seq<Match>, b: seq<Match>)
    ensures Ids(a + b) == Ids(a) + Ids(b)
  {
    if a == [] {
      assert a + b == b;
    } else {
      assert (a + b)[1..] == a[1..] + b;
      IdsAppend(a[1..], b);
    }
  }

  lemma {:induction false} IdsSorted(ms: seq<Match>, le: (Match, Match) -> bool)
    ensures multiset(Ids(Sort(ms, le))) == multiset(Ids(ms))
  {
    if ms != [] {
      IdsSorted(ms[1..], le);
      IdsInsert(ms[0], Sort(ms[1..], le), le);
    }
  }

  lemma {:induction false} IdsInsert(m: Match, ms: seq<Match>, le: (Match, Match) -> bool)
    ensures multiset(Ids(Insert(m, ms, le))) == multiset(Ids(ms)) + multiset{m.descriptor.id}
  {
    if ms != [] && !le(m, ms[0]) {
      IdsInsert(m, ms[1..], le);
      assert ([ms[0]] + Insert(m, ms[1..], le))[1..] == Insert(m, ms[1..], le);
    } else {
      assert ([m] + ms)[1..] == ms;
    }
  }

  lemma {:induction false} IndexIdsSorted(ds: seq<Descriptor>, le: (Descriptor, Descriptor) -> bool)
    ensures multiset(IndexIds(Sort(ds, le))) == multiset(IndexIds(ds))
  {
    if ds != [] {
      IndexIdsSorted(ds[1..], le);
      IndexIdsInsert(ds[0], Sort(ds[1..], le), le);
    }
  }

  lemma {:induction false} IndexIdsInsert(d: Descriptor, ds: seq<Descriptor>, le: (Descriptor, Descriptor) -> bool)
    ensures multiset(IndexIds(Insert(d, ds, le))) == multiset(IndexIds(ds)) + multiset{d.id}
  {
    if ds != [] && !le(d, ds[0]) {
      IndexIdsInsert(d, ds[1..], le);
      assert ([ds[0]] + Insert(d, ds[1..], le))[1..] == Insert(d, ds[1..], le);
    } else {
      assert ([d] + ds)[1..] == ds;
    }
  }

  function Once(here: bool, id: string): multiset<string> {
    if here then multiset{id} else multiset{}
  }

  lemma HiddenStep(judge: Descriptor -> Judgement, ds: seq<Descriptor>)
    requires ds != []
    ensures multiset(HiddenOf(judge, ds)) ==
            Once(judge(ds[0]).Hidden?, ds[0].id) + multiset(HiddenOf(judge, ds[1..]))
  {
  }

  lemma RefusedStep(judge: Descriptor -> Judgement, ds: seq<Descriptor>)
    requires AboutItself(judge) && ds != []
    ensures multiset(Ids(RefusedOf(judge, ds))) ==
            Once(judge(ds[0]).Refused?, ds[0].id) + multiset(Ids(RefusedOf(judge, ds[1..])))
  {
    var rest := RefusedOf(judge, ds[1..]);
    if judge(ds[0]).Refused? {
      IdsAppend([judge(ds[0]).match_], rest);
    } else {
      assert [] + rest == rest;
    }
  }

  lemma ScoredStep(judge: Descriptor -> Judgement, ds: seq<Descriptor>)
    requires AboutItself(judge) && ds != []
    ensures multiset(Ids(ScoredOf(judge, ds))) ==
            Once(judge(ds[0]).Scored?, ds[0].id) + multiset(Ids(ScoredOf(judge, ds[1..])))
  {
    var rest := ScoredOf(judge, ds[1..]);
    if judge(ds[0]).Scored? {
      IdsAppend([judge(ds[0]).match_], rest);
    } else {
      assert [] + rest == rest;
    }
  }

  lemma {:induction false} JudgedOnce(judge: Descriptor -> Judgement, ds: seq<Descriptor>)
    requires AboutItself(judge)
    ensures multiset(HiddenOf(judge, ds)) + multiset(Ids(RefusedOf(judge, ds))) + multiset(Ids(ScoredOf(judge, ds)))
            == multiset(IndexIds(ds))
  {
    if ds != [] {
      JudgedOnce(judge, ds[1..]);
      HiddenStep(judge, ds);
      RefusedStep(judge, ds);
      ScoredStep(judge, ds);
      IndexStep(ds);
      AddOne(judge(ds[0]), ds[0].id, multiset(HiddenOf(judge, ds[1..])), multiset(Ids(RefusedOf(judge, ds[1..]))),
             multiset(Ids(ScoredOf(judge, ds[1..]))));
    }
  }

  lemma IndexStep(ds: seq<Descriptor>)
    requires ds != []
    ensures multiset(IndexIds(ds)) == multiset{ds[0].id} + multiset(IndexIds(ds[1..]))
  {
  }

  lemma AddOne(j: Judgement, id: string, h: multiset<string>, r: multiset<string>, s: multiset<string>)
    ensures (Once(j.Hidden?, id) + h) + (Once(j.Refused?, id) + r) + (Once(j.Scored?, id) + s)
            == multiset{id} + (h + r + s)
  {
  }

  lemma IdsCons(m: Match, ms: seq<Match>)
    ensures multiset(Ids([m] + ms)) == multiset{m.descriptor.id} + multiset(Ids(ms))
  {
    assert ([m] + ms)[1..] == ms;
  }

  ghost function TakenIds(cs: seq<Match>, budget: int, room: Option<nat>): multiset<string> {
    multiset(Ids(Taken(cs, Choose(cs, budget, room))))
  }

  ghost function PassedIds(cs: seq<Match>, budget: int, room: Option<nat>): multiset<string> {
    multiset(Ids(PassedOver(cs, budget, room)))
  }

  lemma PassIds(cs: seq<Match>, budget: int, room: Option<nat>)
    requires cs != [] && (room == Some(0) || cs[0].descriptor.cost > budget)
    ensures TakenIds(cs, budget, room) == TakenIds(cs[1..], budget, room)
    ensures PassedIds(cs, budget, room) == multiset{cs[0].descriptor.id} + PassedIds(cs[1..], budget, room)
  {
    ChooseStep(cs, budget, room);
    PassedStep(cs, budget, room);
    IdsCons(cs[0].(reasons := [Why(room)]), PassedOver(cs[1..], budget, room));
  }

  lemma TakeIds(cs: seq<Match>, budget: int, room: Option<nat>)
    requires cs != [] && room != Some(0) && cs[0].descriptor.cost <= budget
    ensures var rest, more := budget - cs[0].descriptor.cost, Room(room, 1);
      && TakenIds(cs, budget, room) == multiset{cs[0].descriptor.id} + TakenIds(cs[1..], rest, more)
      && PassedIds(cs, budget, room) == PassedIds(cs[1..], rest, more)
  {
    var rest, more := budget - cs[0].descriptor.cost, Room(room, 1);
    ChooseStep(cs, budget, room);
    PassedStep(cs, budget, room);
    IdsCons(cs[0], Taken(cs[1..], Choose(cs[1..], rest, more)));
  }

  lemma {:induction false} TakenOrPassed(cs: seq<Match>, budget: int, room: Option<nat>)
    ensures TakenIds(cs, budget, room) + PassedIds(cs, budget, room) == multiset(Ids(cs))
  {
    if cs != [] {
      assert cs == [cs[0]] + cs[1..];
      IdsCons(cs[0], cs[1..]);
      if room == Some(0) || cs[0].descriptor.cost > budget {
        PassIds(cs, budget, room);
        TakenOrPassed(cs[1..], budget, room);
      } else {
        TakeIds(cs, budget, room);
        TakenOrPassed(cs[1..], budget - cs[0].descriptor.cost, Room(room, 1));
      }
    }
  }

  lemma PlacedOnce(judge: Descriptor -> Judgement, budget: nat, limit: Option<nat>, ds: seq<Descriptor>)
    requires AboutItself(judge)
    ensures var r := Place(judge, budget, limit, ds);
      multiset(Ids(r.selected)) + multiset(Ids(r.rejected)) + multiset(r.hidden) == multiset(IndexIds(ds))
  {
    var all, cs := Sort(ds, ById), Ranked(judge, ds);
    var refused, passed := RefusedOf(judge, all), PassedOver(cs, budget, limit);
    OrdersAreTotal();
    IndexIdsSorted(ds, ById);
    JudgedOnce(judge, all);
    IdsSorted(ScoredOf(judge, all), ByRank);
    TakenOrPassed(cs, budget, limit);
    IdsSorted(refused + passed, MatchById);
    IdsAppend(refused, passed);
    SortSorted(HiddenOf(judge, all), Le);
  }

  /** Selected, rejected and hidden together hold every indexed id, each as often as the index does. */
  lemma EveryDescriptorPlacedOnce(fold: string -> string, q: Request, ds: seq<Descriptor>)
    ensures var r := Select(fold, q, ds);
      multiset(Ids(r.selected)) + multiset(Ids(r.rejected)) + multiset(r.hidden) == multiset(IndexIds(ds))
  {
    assert AboutItself(Judging(fold, q));
    PlacedOnce(Judging(fold, q), q.budget, q.limit, ds);
  }

  // ----- Nothing inadmissible is ever selected -----

  lemma {:induction false} NoNegative(fold: string -> string, intent: string, triggers: seq<string>, t: string)
    requires FirstNegative(fold, intent, triggers).None? && t in triggers
    ensures !ContainsPhrase(intent, Normalize(fold, t))
  {
    if t != triggers[0] {
      NoNegative(fold, intent, triggers[1..], t);
    }
  }

  lemma {:induction false} AskingMeans(q: Request, permissions: seq<string>)
    ensures Asking(q, permissions) != [] <==> exists p :: p in permissions && DecisionFor(q, p) == Ask
  {
    if permissions != [] {
      AskingMeans(q, permissions[1..]);
      assert permissions == [permissions[0]] + permissions[1..];
    }
  }

  /** What a capability must satisfy before it may be offered for a request. */
  ghost predicate Admissible(fold: string -> string, q: Request, d: Descriptor) {
    && d.enabled
    && (forall p :: p in d.permissions ==> p in q.decisions && q.decisions[p] != Deny)
    && (forall t :: t in d.negativeTriggers ==> !Sublist(Words(fold(t)), Words(fold(q.intent))))
    && PathMatches(d.scopes, q.path)
  }

  lemma ScoredIsAdmissible(fold: string -> string, q: Request, d: Descriptor)
    requires Judge(fold, q, d).Scored?
    ensures var m := Judge(fold, q, d).match_;
      && m.descriptor == d && m.score > 0 && Admissible(fold, q, d)
      && (m.requiresApproval <==> exists p :: p in d.permissions && p in q.decisions && q.decisions[p] == Ask)
  {
    AskingMeans(q, d.permissions);
    forall t | t in d.negativeTriggers ensures !Sublist(Words(fold(t)), Words(fold(q.intent))) {
      NoNegative(fold, Normalize(fold, q.intent), d.negativeTriggers, t);
      PhraseTestIsSublist(fold, q.intent, t);
    }
  }

  lemma {:induction false} ScoredFrom(judge: Descriptor -> Judgement, ds: seq<Descriptor>, m: Match) returns (d: Descriptor)
    requires m in ScoredOf(judge, ds)
    ensures d in ds && judge(d) == Scored(m)
  {
    JudgeStep(judge, ds);
    if judge(ds[0]) == Scored(m) {
      d := ds[0];
    } else {
      d := ScoredFrom(judge, ds[1..], m);
    }
  }

  lemma {:induction false} TakenFrom(cs: seq<Match>, picks: seq<bool>, m: Match)
    requires |cs| == |picks| && m in Taken(cs, picks)
    ensures m in cs
  {
    if m != cs[0] {
      TakenFrom(cs[1..], picks[1..], m);
    }
  }

  /** Every selected capability is indexed, admissible and scored; asking permissions need approval. */
  lemma SelectedIsAdmissible(fold: string -> string, q: Request, ds: seq<Descriptor>, m: Match)
    requires m in Select(fold, q, ds).selected
    ensures m.descriptor in ds && m.score > 0 && Admissible(fold, q, m.descriptor)
    ensures m.requiresApproval <==>
            exists p :: p in m.descriptor.permissions && p in q.decisions && q.decisions[p] == Ask
  {
    var judge, all := Judging(fold, q), Sort(ds, ById);
    var cs := Ranked(judge, ds);
    OrdersAreTotal();
    TakenFrom(cs, Choose(cs, q.budget, q.limit), m);
    SortSorted(ScoredOf(judge, all), ByRank);
    SameMembers(cs, ScoredOf(judge, all), m);
    var d := ScoredFrom(judge, all, m);
    SortSorted(ds, ById);
    SameMembers(all, ds, d);
    ScoredIsAdmissible(fold, q, d);
  }

  /** The order in which descriptors were indexed does not matter. */
  lemma SelectionIgnoresInsertionOrder(fold: string -> string, q: Request, ds: seq<Descriptor>, es: seq<Descriptor>)
    requires DistinctIds(ds) && multiset(ds) == multiset(es)
    ensures Select(fold, q, ds) == Select(fold, q, es)
  {
    OrdersAreTotal();
    SortSorted(ds, ById);
    SortSorted(es, ById);
    forall x, y | x in Sort(ds, ById) && y in Sort(ds, ById) && ById(x, y) && ById(y, x) ensures x == y {
      SameMembers(Sort(ds, ById), ds, x);
      SameMembers(Sort(ds, ById), ds, y);
      LeAntisymmetric(x.id, y.id);
    }
    SortedUnique(Sort(ds, ById), Sort(es, ById), ById);
  }
}
