/**
 * The race for a verification's single terminal record.  Worker, deadline handler and
 * cancellation handler may each ask to finish; code between two awaits is one step, and the
 * steps of all parties interleave arbitrarily.
 */
module TerminalRace {
  import opened Options
  import opened Verifier

  /** The background task that writes the terminal record, in three awaited stages. */
  datatype Task = Absent | Running(stage: nat, result: Result) | Finished | Faulted

  datatype Terminal = Terminal(started: bool, persisted: bool, result: Option<Result>, task: Task)

  /** One call of the finishing routine; any number may be under way. */
  datatype Finisher =
    | Ready(proposal: Result)
    | Waiting(value: Result)
    | Returned(value: Result)
    | Raised

  /** Who called verify; own is the index of the finisher that the handler itself started. */
  datatype Caller =
    | AwaitingWorker
    | AwaitingRecord(fallback: Result)
    | AwaitingOwnFinish(fallback: Result, own: nat)
    | AwaitingCancelFinish(fallback: Result, own: nat)
    | Answered(value: Result, recordedBefore: bool)
    | RaisedToCaller

  datatype Entry = DelegationCompleted(result: Result) | RunStopped(result: Result)

  datatype World = World(terminal: Terminal, finishers: seq<Finisher>, caller: Caller, ledger: seq<Entry>,
                         tasksStarted: nat)

  datatype Step =
    | WorkerFinishes(proposal: Result)
    | FinisherRuns(i: nat)
    | FinisherResumes(i: nat)
    | FinisherCancelled(i: nat)
    | PersistAdvances
    | PersistFaults
    | WorkerReturns(i: nat)
    | WorkerRaises
    | DeadlineStrikes(timeout: Result)
    | WaitEnds
    | CancelStrikes(cancelled: Result)

  const START := World(Terminal(false, false, None, Absent), [], AwaitingWorker, [], 0)

  function RunFinisher(w: World, i: nat): World
    requires i < |w.finishers| && w.finishers[i].Ready?
  {
    var t, proposal := w.terminal, w.finishers[i].proposal;
    if t.started then
      var f := if t.result.None? then Raised
               else if t.task.Absent? then Returned(t.result.value)
               else Waiting(t.result.value);
      w.(finishers := w.finishers[i := f])
    else
      w.(terminal := Terminal(true, t.persisted, Some(proposal), Running(0, proposal)),
         finishers := w.finishers[i := Waiting(proposal)],
         tasksStarted := w.tasksStarted + 1)
  }

  function Persist(w: World): World
    requires w.terminal.task.Running?
  {
    var t := w.terminal;
    var k, result := t.task.stage, t.task.result;
    if k == 0 then w.(terminal := t.(task := Running(1, result)), ledger := w.ledger + [DelegationCompleted(result)])
    else if k == 1 then w.(terminal := t.(task := Running(2, result)), ledger := w.ledger + [RunStopped(result)])
    else w.(terminal := t.(persisted := true, task := Finished))
  }

  function Answer(w: World, fallback: Result): World {
    var value := if w.terminal.result.Some? then w.terminal.result.value else fallback;
    w.(caller := Answered(value, w.terminal.started))
  }

  /** One atomic step; a step that is not possible leaves everything as it is. */
  function Next(w: World, s: Step): World {
    match s
    case WorkerFinishes(proposal) => w.(finishers := w.finishers + [Ready(proposal)])
    case FinisherRuns(i) => if i < |w.finishers| && w.finishers[i].Ready? then RunFinisher(w, i) else w
    case FinisherResumes(i) =>
      if i < |w.finishers| && w.finishers[i].Waiting? && w.terminal.task.Finished? then
        w.(finishers := w.finishers[i := Returned(w.finishers[i].value)])
      else if i < |w.finishers| && w.finishers[i].Waiting? && w.terminal.task.Faulted? then
        w.(finishers := w.finishers[i := Raised])
      else w
    case FinisherCancelled(i) =>
      if i < |w.finishers| && (w.finishers[i].Waiting? || w.finishers[i].Ready?)
      then w.(finishers := w.finishers[i := Raised]) else w
    case PersistAdvances => if w.terminal.task.Running? then Persist(w) else w
    case PersistFaults =>
      if w.terminal.task.Running? then w.(terminal := w.terminal.(task := Faulted)) else w
    case WorkerReturns(i) =>
      if w.caller.AwaitingWorker? && i < |w.finishers| && w.finishers[i].Returned?
      then w.(caller := Answered(w.finishers[i].value, w.terminal.started)) else w
    case WorkerRaises => if w.caller.AwaitingWorker? then w.(caller := RaisedToCaller) else w
    case DeadlineStrikes(timeout) =>
      if !w.caller.AwaitingWorker? then w
      else if w.terminal.started then w.(caller := AwaitingRecord(timeout))
      else w.(caller := AwaitingOwnFinish(timeout, |w.finishers|), finishers := w.finishers + [Ready(timeout)])
    case WaitEnds =>
      (match w.caller
       case AwaitingRecord(fallback) => Answer(w, fallback)
       case AwaitingOwnFinish(fallback, _) => Answer(w, fallback)
       case AwaitingCancelFinish(_, _) => w.(caller := RaisedToCaller)
       case _ => w)
    case CancelStrikes(cancelled) =>
      if !w.caller.AwaitingWorker? then w
      else if w.terminal.started then w.(caller := RaisedToCaller)
      else w.(caller := AwaitingCancelFinish(cancelled, |w.finishers|), finishers := w.finishers + [Ready(cancelled)])
  }

  ghost function Run(steps: seq<Step>): World {
    if steps == [] then START else Next(Run(steps[..|steps| - 1]), steps[|steps| - 1])
  }

  // ----- The invariant of every interleaving -----

  ghost predicate Script(w: World) {
    match w.terminal.task
    case Absent => w.ledger == [] && !w.terminal.persisted
    case Running(k, r) =>
      && !w.terminal.persisted && w.terminal.result == Some(r) && k <= 2
      && w.ledger == [DelegationCompleted(r), RunStopped(r)][..k]
    case Finished =>
      && w.terminal.persisted && w.terminal.result.Some?
      && w.ledger == [DelegationCompleted(w.terminal.result.value), RunStopped(w.terminal.result.value)]
    case Faulted =>
      && !w.terminal.persisted && w.terminal.result.Some? && |w.ledger| <= 2
      && w.ledger == [DelegationCompleted(w.terminal.result.value), RunStopped(w.terminal.result.value)][..|w.ledger|]
  }

  ghost predicate Holds(t: Terminal, value: Result) {
    t.result == Some(value)
  }

  /** A handler waits for a finisher of its own, which proposes what the handler proposes. */
  ghost predicate OwnsFinisher(w: World)
    requires w.caller.AwaitingOwnFinish? || w.caller.AwaitingCancelFinish?
  {
    w.caller.own < |w.finishers| &&
    (w.finishers[w.caller.own].Ready? ==> w.finishers[w.caller.own].proposal == w.caller.fallback)
  }

  ghost predicate Inv(w: World) {
    var t := w.terminal;
    && (t.started <==> t.result.Some?) && (t.started <==> !t.task.Absent?)
    && w.tasksStarted == (if t.started then 1 else 0)
    && Script(w)
    && (forall i :: 0 <= i < |w.finishers| ==>
          (w.finishers[i].Waiting? ==> Holds(t, w.finishers[i].value)) &&
          (w.finishers[i].Returned? ==> Holds(t, w.finishers[i].value)))
    && (w.caller.AwaitingRecord? ==> t.started)
    && ((w.caller.AwaitingOwnFinish? || w.caller.AwaitingCancelFinish?) ==> OwnsFinisher(w))
    && (w.caller.Answered? && w.caller.recordedBefore ==> Holds(t, w.caller.value))
  }

  /** The record is never replaced and the ledger only grows. */
  ghost predicate Extends(w: World, n: World) {
    (w.terminal.result.Some? ==> n.terminal.result == w.terminal.result) && w.ledger <= n.ledger
  }

  lemma FinisherKeeps(w: World, i: nat)
    requires Inv(w) && i < |w.finishers| && w.finishers[i].Ready?
    ensures Inv(RunFinisher(w, i)) && Extends(w, RunFinisher(w, i))
  {
  }

  lemma PersistKeeps(w: World)
    requires Inv(w) && w.terminal.task.Running?
    ensures Inv(Persist(w)) && Extends(w, Persist(w))
  {
  }

  lemma FaultKeeps(w: World)
    requires Inv(w) && w.terminal.task.Running?
    ensures Inv(w.(terminal := w.terminal.(task := Faulted)))
  {
    var script := [DelegationCompleted(w.terminal.task.result), RunStopped(w.terminal.task.result)];
    assert |script[..w.terminal.task.stage]| == w.terminal.task.stage;
  }

  lemma StepKeeps(w: World, s: Step)
    requires Inv(w)
    ensures Inv(Next(w, s)) && Extends(w, Next(w, s))
  {
    match s
    case FinisherRuns(i) => if i < |w.finishers| && w.finishers[i].Ready? { FinisherKeeps(w, i); }
    case PersistAdvances => if w.terminal.task.Running? { PersistKeeps(w); }
    case PersistFaults => if w.terminal.task.Running? { FaultKeeps(w); }
    case _ =>
  }

  lemma {:induction false} RunKeeps(steps: seq<Step>)
    ensures Inv(Run(steps))
  {
    if steps != [] {
      RunKeeps(steps[..|steps| - 1]);
      StepKeeps(Run(steps[..|steps| - 1]), steps[|steps| - 1]);
    }
  }

  /** The recorded result is set once and never changes; the ledger only grows. */
  lemma {:induction false} RecordIsFinal(steps: seq<Step>, n: nat)
    requires n <= |steps|
    ensures Run(steps[..n]).terminal.result.Some? ==>
              Run(steps).terminal.result == Run(steps[..n]).terminal.result
    ensures Run(steps[..n]).ledger <= Run(steps).ledger
    decreases |steps|
  {
    if n == |steps| {
      assert steps[..n] == steps;
    } else {
      var front := steps[..|steps| - 1];
      assert front[..n] == steps[..n];
      RecordIsFinal(front, n);
      RunKeeps(front);
      StepKeeps(Run(front), steps[|steps| - 1]);
    }
  }

  /** On every interleaving at most one persist task starts, and each ledger entry is written at most once. */
  lemma OnePersistTask(steps: seq<Step>)
    ensures Run(steps).tasksStarted <= 1 && |Run(steps).ledger| <= 2
    ensures forall i :: 0 <= i < |Run(steps).ledger| ==>
              Run(steps).terminal.result == Some(Run(steps).ledger[i].result)
    ensures |Run(steps).ledger| == 2 ==> Run(steps).ledger[0].DelegationCompleted? && Run(steps).ledger[1].RunStopped?
  {
    RunKeeps(steps);
  }

  /** A result returned once recording has begun is the recorded one, now and for the rest of the run. */
  lemma AnswerIsTheRecord(steps: seq<Step>, n: nat)
    requires n <= |steps| && Run(steps[..n]).caller.Answered? && Run(steps[..n]).caller.recordedBefore
    ensures Run(steps).terminal.result == Some(Run(steps[..n]).caller.value)
    ensures forall i :: 0 <= i < |Run(steps).ledger| ==> Run(steps).ledger[i].result == Run(steps[..n]).caller.value
  {
    RunKeeps(steps[..n]);
    RecordIsFinal(steps, n);
    RunKeeps(steps);
  }

  /** The condition is needed: answering before recording begins leaves room for another record. */
  lemma EarlyAnswerMayDiffer(timeout: Result, other: Result)
    requires timeout != other
    ensures exists steps :: Run(steps).caller == Answered(timeout, false) && Run(steps).terminal.result == Some(other)
  {
    var s1 := [DeadlineStrikes(timeout)];
    var s2 := s1 + [WaitEnds];
    var s3 := s2 + [WorkerFinishes(other)];
    var s4 := s3 + [FinisherRuns(1)];
    assert s1[..0] == [] && s2[..1] == s1 && s3[..2] == s2 && s4[..3] == s3;
    assert Run(s1).finishers == [Ready(timeout)];
    assert Run(s2).caller == Answered(timeout, false);
    assert Run(s3).finishers == [Ready(timeout), Ready(other)];
    assert Run(s4).terminal.result == Some(other);
  }

  // ----- A proposal that comes first is recorded -----

  /** The result that worker, deadline or cancellation asks to record in this state, if it does. */
  ghost function Proposal(w: World, s: Step): Option<Result> {
    match s
    case WorkerFinishes(r) => Some(r)
    case DeadlineStrikes(r) => if w.caller.AwaitingWorker? && !w.terminal.started then Some(r) else None
    case CancelStrikes(r) => if w.caller.AwaitingWorker? && !w.terminal.started then Some(r) else None
    case _ => None
  }

  ghost function Continue(w: World, steps: seq<Step>): World {
    if steps == [] then w else Next(Continue(w, steps[..|steps| - 1]), steps[|steps| - 1])
  }

  ghost function Advances(steps: seq<Step>): nat {
    if steps == [] then 0
    else Advances(steps[..|steps| - 1]) + if steps[|steps| - 1].PersistAdvances? then 1 else 0
  }

  /** Whoever proposes has a finisher for just that proposal from then on. */
  lemma ProposalQueued(w: World, s: Step)
    requires Proposal(w, s).Some?
    ensures Next(w, s).finishers == w.finishers + [Ready(Proposal(w, s).value)]
    ensures Next(w, s).terminal == w.terminal && Next(w, s).ledger == w.ledger
    ensures s.DeadlineStrikes? ==> Next(w, s).caller == AwaitingOwnFinish(Proposal(w, s).value, |w.finishers|)
    ensures s.CancelStrikes? ==> Next(w, s).caller == AwaitingCancelFinish(Proposal(w, s).value, |w.finishers|)
  {
  }

  /** No finisher runs, and finisher i is not cancelled. */
  ghost predicate Quiet(steps: seq<Step>, i: nat) {
    forall k :: 0 <= k < |steps| ==> !steps[k].FinisherRuns? && steps[k] != FinisherCancelled(i)
  }

  lemma QuietStep(w: World, s: Step, i: nat)
    requires Inv(w) && !w.terminal.started && i < |w.finishers| && w.finishers[i].Ready?
    requires !s.FinisherRuns? && s != FinisherCancelled(i)
    ensures !Next(w, s).terminal.started && i < |Next(w, s).finishers| && Next(w, s).finishers[i] == w.finishers[i]
  {
  }

  lemma {:induction false} QuietKeeps(w: World, steps: seq<Step>, i: nat)
    requires Inv(w) && !w.terminal.started && i < |w.finishers| && w.finishers[i].Ready? && Quiet(steps, i)
    ensures var n := Continue(w, steps);
      Inv(n) && !n.terminal.started && i < |n.finishers| && n.finishers[i] == w.finishers[i]
  {
    if steps != [] {
      var front := steps[..|steps| - 1];
      assert forall k :: 0 <= k < |front| ==> front[k] == steps[k];
      QuietKeeps(w, front, i);
      QuietStep(Continue(w, front), steps[|steps| - 1], i);
      StepKeeps(Continue(w, front), steps[|steps| - 1]);
    }
  }

  lemma FirstRecords(w: World, i: nat)
    requires Inv(w) && !w.terminal.started && i < |w.finishers| && w.finishers[i].Ready?
    ensures var n, p := Next(w, FinisherRuns(i)), w.finishers[i].proposal;
      Inv(n) && n.terminal == Terminal(true, false, Some(p), Running(0, p)) && n.ledger == [] && n.finishers[i] == Waiting(p)
  {
    StepKeeps(w, FinisherRuns(i));
  }

  /** How far the record has come: stage of its three awaited writes. */
  ghost predicate Recording(w: World, p: Result, k: nat) {
    && w.terminal.result == Some(p)
    && (k < 3 ==> w.terminal.task == Running(k, p))
    && (k >= 3 ==> w.terminal.task.Finished?)
  }

  lemma RecordingStep(w: World, s: Step, p: Result, k: nat)
    requires Inv(w) && Recording(w, p, k) && !s.PersistFaults?
    ensures Inv(Next(w, s)) && Recording(Next(w, s), p, if s.PersistAdvances? then k + 1 else k)
  {
    StepKeeps(w, s);
  }

  lemma {:induction false} RecordingRuns(w: World, steps: seq<Step>, p: Result)
    requires Inv(w) && Recording(w, p, 0) && PersistFaults !in steps
    ensures Inv(Continue(w, steps)) && Recording(Continue(w, steps), p, Advances(steps))
  {
    if steps != [] {
      var front := steps[..|steps| - 1];
      RecordingRuns(w, front, p);
      RecordingStep(Continue(w, front), steps[|steps| - 1], p, Advances(front));
    }
  }

  /**
   * From any state in which nothing is recorded yet: if a party proposes p, no other finisher runs
   * before its own, and its persist task is given three turns without a fault, then p is recorded,
   * both entries for p and no others are in the ledger, and the record is persisted.
   */
  lemma ProposalIsRecorded(w: World, s: Step, mid: seq<Step>, rest: seq<Step>)
    requires Inv(w) && !w.terminal.started && Proposal(w, s).Some?
    requires Quiet(mid, |w.finishers|) && PersistFaults !in rest && Advances(rest) >= 3
    ensures var p := Proposal(w, s).value;
      var n := Continue(Next(Continue(Next(w, s), mid), FinisherRuns(|w.finishers|)), rest);
      n.terminal.result == Some(p) && n.ledger == [DelegationCompleted(p), RunStopped(p)] && n.terminal.persisted
  {
    ProposalQueued(w, s);
    StepKeeps(w, s);
    QuietKeeps(Next(w, s), mid, |w.finishers|);
    var ready := Continue(Next(w, s), mid);
    FirstRecords(ready, |w.finishers|);
    RecordingRuns(Next(ready, FinisherRuns(|w.finishers|)), rest, Proposal(w, s).value);
  }

  /** Once recording has begun, the deadline handler answers with the record as soon as its wait ends. */
  lemma DeadlineAnswersTheRecord(w: World)
    requires Inv(w) && w.terminal.started && (w.caller.AwaitingOwnFinish? || w.caller.AwaitingRecord?)
    ensures Next(w, WaitEnds).caller == Answered(w.terminal.result.value, true)
  {
  }

  /** A worker whose finisher waits for a persisted record returns that record. */
  lemma WorkerReturnsTheRecord(w: World, i: nat)
    requires Inv(w) && w.caller.AwaitingWorker? && w.terminal.task.Finished?
    requires i < |w.finishers| && w.finishers[i].Waiting?
    ensures Next(Next(w, FinisherResumes(i)), WorkerReturns(i)).caller == Answered(w.terminal.result.value, true)
  {
  }

  // ----- What the child may propose is all that can come out -----

  ghost predicate Proposes(ok: Result -> bool, s: Step) {
    match s
    case WorkerFinishes(r) => ok(r)
    case DeadlineStrikes(r) => ok(r)
    case CancelStrikes(r) => ok(r)
    case _ => true
  }

  ghost predicate FinisherHolds(ok: Result -> bool, f: Finisher) {
    match f
    case Ready(r) => ok(r)
    case Waiting(r) => ok(r)
    case Returned(r) => ok(r)
    case Raised => true
  }

  ghost predicate CallerHolds(ok: Result -> bool, c: Caller) {
    match c
    case AwaitingRecord(r) => ok(r)
    case AwaitingOwnFinish(r, _) => ok(r)
    case Answered(r, _) => ok(r)
    case _ => true
  }

  ghost predicate WorldHolds(ok: Result -> bool, w: World) {
    && (w.terminal.result.Some? ==> ok(w.terminal.result.value))
    && (w.terminal.task.Running? ==> ok(w.terminal.task.result))
    && (forall i :: 0 <= i < |w.finishers| ==> FinisherHolds(ok, w.finishers[i]))
    && (forall i :: 0 <= i < |w.ledger| ==> ok(w.ledger[i].result))
    && CallerHolds(ok, w.caller)
  }

  lemma StepPreserves(ok: Result -> bool, w: World, s: Step)
    requires WorldHolds(ok, w) && Proposes(ok, s)
    ensures WorldHolds(ok, Next(w, s))
  {
  }

  /** Whatever holds of all proposals holds of the answer, the record and every ledger entry. */
  lemma {:induction false} RunPreserves(ok: Result -> bool, steps: seq<Step>)
    requires forall i :: 0 <= i < |steps| ==> Proposes(ok, steps[i])
    ensures WorldHolds(ok, Run(steps))
  {
    if steps != [] {
      var front := steps[..|steps| - 1];
      assert forall i :: 0 <= i < |front| ==> front[i] == steps[i];
      RunPreserves(ok, front);
      StepPreserves(ok, Run(front), steps[|steps| - 1]);
    }
  }

  ghost function Soundness(q: Request): Result -> bool {
    r => Sound(q, r)
  }

  /**
   * If worker, deadline and cancellation only propose sound results, then on every interleaving
   * the answer, the record and every ledger entry are sound.
   */
  lemma EveryOutcomeSound(q: Request, steps: seq<Step>)
    requires forall i :: 0 <= i < |steps| ==> Proposes(Soundness(q), steps[i])
    ensures var w := Run(steps);
      && (w.caller.Answered? ==> Sound(q, w.caller.value))
      && (w.terminal.result.Some? ==> Sound(q, w.terminal.result.value))
      && (forall i :: 0 <= i < |w.ledger| ==> Sound(q, w.ledger[i].result))
  {
    RunPreserves(Soundness(q), steps);
  }

  /** The fallbacks of the deadline and cancellation handlers are sound proposals. */
  lemma FallbacksSound(q: Request, u: Usage, why: Reason, n: nat)
    ensures Sound(q, Result(Timeout, u, FailClosed(q, why), n))
    ensures Sound(q, Result(Cancelled, u, FailClosed(q, why), n))
  {
  }
}
