/**
 * What the candidate service promises to do, beside what it promises never to do: a granted
 * request carries a candidate through its whole life, and a candidate rests on real evidence.
 */
module CandidateLifecycle {
  import opened Options
  import opened Candidates

  /** The facts the evaluations and the drift report must state about a proposal. */
  ghost predicate Backed(db: Db, e: Evidence) {
    && e.baselineEvalId != e.candidateEvalId
    && e.baselineEvalId in db.evaluations && e.candidateEvalId in db.evaluations
    && db.evaluations[e.baselineEvalId] == Evaluation(e.ownerId, e.projectId, true)
    && db.evaluations[e.candidateEvalId] == Evaluation(e.ownerId, e.projectId, true)
    && (e.driftReportId.Some? ==>
          e.driftReportId.value in db.drifts &&
          db.drifts[e.driftReportId.value] == Drift(e.ownerId, e.projectId, e.baselineEvalId, e.candidateEvalId))
  }

  lemma StepBacks(db: Db, s: Step, id: Id)
    requires id in db.candidates ==> Backed(db, db.candidates[id].evidence)
    ensures Apply(db, s).0.evaluations == db.evaluations && Apply(db, s).0.drifts == db.drifts
    ensures id in Apply(db, s).0.candidates ==> Backed(db, Apply(db, s).0.candidates[id].evidence)
  {
    if id in db.candidates { GuardAdmits(db, s, id); }
  }

  /** In every run each candidate rests on two different completed evaluations of its owner and project. */
  lemma {:induction false} EveryCandidateBacked(db: Db, steps: seq<Step>, id: Id)
    requires Fresh(db) && id in Run(db, steps).candidates
    ensures Backed(db, Run(db, steps).candidates[id].evidence)
    ensures Run(db, steps).evaluations == db.evaluations && Run(db, steps).drifts == db.drifts
  {
    RunBacks(db, steps, id);
  }

  lemma {:induction false} RunBacks(db: Db, steps: seq<Step>, id: Id)
    requires Fresh(db)
    ensures Run(db, steps).evaluations == db.evaluations && Run(db, steps).drifts == db.drifts
    ensures id in Run(db, steps).candidates ==> Backed(db, Run(db, steps).candidates[id].evidence)
  {
    if steps != [] {
      var front := steps[..|steps| - 1];
      RunBacks(db, front, id);
      StepBacks(Run(db, front), steps[|steps| - 1], id);
    }
  }

  // ----- Each stage, told by the rows and events it leaves -----

  function Payload(e: Evidence, id: Id): Arguments {
    Promotion(e.ownerId, e.projectId, id, 1, e.targetRevision, e.baselineEvalId, e.candidateEvalId)
  }

  lemma Proposes(db: Db, id: Id, e: Evidence, t0: Time)
    requires id !in db.candidates && Backed(db, e)
    ensures Apply(db, Create(id, e, true, t0)) ==
      (db.(candidates := db.candidates[id := Candidate(e, t0, Proposed, 1, None, t0, None, None)],
           events := db.events + [Event(id, e.ownerId, e.projectId, None, Proposed, 1, None, None, t0)]), Accepted)
  {
  }

  lemma Asks(db: Db, id: Id, receipt: Id, call: Id, ttl: int, t1: Time)
    requires id in db.candidates && db.candidates[id].state == Proposed && db.candidates[id].version == 1
    requires receipt !in db.receipts && ttl > 0
    ensures var e := db.candidates[id].evidence;
      Apply(db, RequestApproval(Target(e.ownerId, e.projectId, id, 1), receipt, call, ttl, t1)) ==
      (db.(receipts := db.receipts[receipt :=
         Receipt(e.ownerId, e.projectId, id, call, "optimization.promote", Payload(e, id), Pending, t1 + ttl, None, None)]),
       Accepted)
  {
  }

  /** The receipt that was requested, granted by its user. */
  ghost predicate HasGrant(db: Db, id: Id, receipt: Id, e: Evidence, expiry: Time) {
    && receipt in db.receipts && var r := db.receipts[receipt];
    && r.userId == e.ownerId && r.conversationId == e.projectId && r.runId == id && r.tool == "optimization.promote"
    && r.arguments == Payload(e, id) && r.status == Granted && r.expiresAt == expiry
  }

  /** An exact granted receipt is accepted before it expires, and only before. */
  lemma Approves(db: Db, id: Id, receipt: Id, expiry: Time, t3: Time)
    requires id in db.candidates && db.candidates[id].state == Proposed && db.candidates[id].version == 1
    requires db.candidates[id].approvalId.None? && HasGrant(db, id, receipt, db.candidates[id].evidence, expiry)
    ensures var c, (after, reply) := db.candidates[id],
        Apply(db, Approve(Target(db.candidates[id].evidence.ownerId, db.candidates[id].evidence.projectId, id, 1), receipt, t3));
      && (reply == Accepted <==> t3 < expiry) && (reply != Accepted ==> after == db)
      && (reply == Accepted ==>
            && after.candidates == db.candidates[id := c.(state := Approved, version := 2, approvalId := Some(receipt), updatedAt := t3)]
            && after.events == db.events + [Event(id, c.evidence.ownerId, c.evidence.projectId, Some(Proposed), Approved, 2,
                                                  Some(receipt), None, t3)])
  {
  }

  lemma Promotes(db: Db, id: Id, t4: Time)
    requires id in db.candidates && db.candidates[id].state == Approved && db.candidates[id].version == 2
    requires db.candidates[id].approvalId.Some?
    ensures var c := db.candidates[id];
      Apply(db, Promote(Target(c.evidence.ownerId, c.evidence.projectId, id, 2), t4)) ==
      (db.(candidates := db.candidates[id := c.(state := Promoted, version := 3, updatedAt := t4, promotedAt := Some(t4))],
           events := db.events + [Event(id, c.evidence.ownerId, c.evidence.projectId, Some(Approved), Promoted, 3,
                                        c.approvalId, None, t4)]), Accepted)
  {
  }

  lemma RollsBack(db: Db, id: Id, reason: string, t5: Time)
    requires id in db.candidates && db.candidates[id].state == Promoted && db.candidates[id].version == 3
    requires ValidReason(reason)
    ensures var c := db.candidates[id];
      Apply(db, Rollback(Target(c.evidence.ownerId, c.evidence.projectId, id, 3), reason, t5)) ==
      (db.(candidates := db.candidates[id := c.(state := RolledBack, version := 4, updatedAt := t5, rolledBackAt := Some(t5))],
           events := db.events + [Event(id, c.evidence.ownerId, c.evidence.projectId, Some(Promoted), RolledBack, 4,
                                        c.approvalId, Some(reason), t5)]), Accepted)
  {
  }

  /** A proposed or approved candidate can always be rejected at its own version, and the reason is kept. */
  lemma Rejects(db: Db, id: Id, reason: string, now: Time)
    requires id in db.candidates && db.candidates[id].state in {Proposed, Approved} && ValidReason(reason)
    ensures var c, (after, reply) := db.candidates[id], Apply(db, Reject(Target(db.candidates[id].evidence.ownerId,
        db.candidates[id].evidence.projectId, id, db.candidates[id].version), reason, now));
      && reply == Accepted
      && after.candidates == db.candidates[id := c.(state := Rejected, version := c.version + 1, updatedAt := now)]
      && after.events == db.events + [Event(id, c.evidence.ownerId, c.evidence.projectId, Some(c.state), Rejected,
                                            c.version + 1, c.approvalId, Some(reason), now)]
  {
  }

  // ----- Exactly when each call is accepted -----

  /** The candidate exists, belongs to the caller's owner and project, and is where the caller believes it. */
  ghost predicate Stands(db: Db, t: Target, s: State) {
    && t.candidateId in db.candidates
    && var c := db.candidates[t.candidateId];
    && c.evidence.ownerId == t.ownerId && c.evidence.projectId == t.projectId && c.version == t.version && c.state == s
  }

  lemma CreateReplies(db: Db, id: Id, e: Evidence, textAccepted: bool, now: Time)
    ensures var (after, reply) := Apply(db, Create(id, e, textAccepted, now));
      && (reply == Accepted <==> textAccepted && Backed(db, e) && id !in db.candidates)
      && (reply == Invalid <==> !textAccepted)
      && (reply == NotFound <==> textAccepted && !Backed(db, e))
      && (reply != Accepted ==> after == db)
  {
  }

  lemma RequestReplies(db: Db, t: Target, receipt: Id, call: Id, ttl: int, now: Time)
    ensures var (after, reply) := Apply(db, RequestApproval(t, receipt, call, ttl, now));
      && (reply == Accepted <==> Stands(db, t, Proposed) && ttl > 0 && receipt !in db.receipts)
      && (reply == Conflict <==> !Stands(db, t, Proposed))
      && (reply != Accepted ==> after == db)
  {
  }

  lemma ApproveReplies(db: Db, t: Target, receipt: Id, now: Time)
    ensures var (after, reply) := Apply(db, Approve(t, receipt, now));
      && (reply == Accepted <==>
            && Stands(db, t, Proposed) && db.candidates[t.candidateId].approvalId.None?
            && receipt in db.receipts && var r := db.receipts[receipt];
            && r.userId == t.ownerId && r.conversationId == t.projectId && r.runId == t.candidateId
            && r.tool == "optimization.promote" && r.status == Granted && now < r.expiresAt
            && var e := db.candidates[t.candidateId].evidence;
            r.arguments == Promotion(e.ownerId, e.projectId, t.candidateId, t.version, e.targetRevision,
                                     e.baselineEvalId, e.candidateEvalId))
      && (reply != Accepted ==> reply == Conflict && after == db)
  {
  }

  lemma PromoteReplies(db: Db, t: Target, now: Time)
    ensures var (after, reply) := Apply(db, Promote(t, now));
      && (reply == Accepted <==> Stands(db, t, Approved) && db.candidates[t.candidateId].approvalId.Some?)
      && (reply != Accepted ==> reply == Conflict && after == db)
  {
  }

  lemma RejectReplies(db: Db, t: Target, reason: string, now: Time)
    ensures var (after, reply) := Apply(db, Reject(t, reason, now));
      && (reply == Accepted <==> ValidReason(reason) && (Stands(db, t, Proposed) || Stands(db, t, Approved)))
      && (reply == Invalid <==> !ValidReason(reason))
      && (reply != Accepted ==> after == db)
  {
  }

  lemma RollbackReplies(db: Db, t: Target, reason: string, now: Time)
    ensures var (after, reply) := Apply(db, Rollback(t, reason, now));
      && (reply == Accepted <==> ValidReason(reason) && Stands(db, t, Promoted))
      && (reply == Invalid <==> !ValidReason(reason))
      && (reply != Accepted ==> after == db)
  {
  }

  // ----- The whole life -----

  datatype Life = Life(id: Id, evidence: Evidence, receipt: Id, call: Id, ttl: int, grounds: string, remorse: string,
                       times: seq<Time>)

  function At(l: Life, version: nat): Target { Target(l.evidence.ownerId, l.evidence.projectId, l.id, version) }

  /** Proposed, asked for, granted, approved, promoted and rolled back, at six times. */
  function Calls(l: Life): seq<Step>
    requires |l.times| == 6
  {
    [Create(l.id, l.evidence, true, l.times[0]),
     RequestApproval(At(l, 1), l.receipt, l.call, l.ttl, l.times[1]),
     Decide(l.receipt, l.evidence.ownerId, true, l.grounds, l.times[2]),
     Approve(At(l, 1), l.receipt, l.times[3]),
     Promote(At(l, 2), l.times[4]),
     Rollback(At(l, 3), l.remorse, l.times[5])]
  }

  ghost predicate Possible(db: Db, l: Life) {
    && |l.times| == 6 && l.id !in db.candidates && l.receipt !in db.receipts && Backed(db, l.evidence)
    && l.ttl > 0 && ValidReason(l.grounds) && ValidReason(l.remorse)
    && l.times[2] < l.times[1] + l.ttl && l.times[3] < l.times[1] + l.ttl
  }

  ghost function After(db: Db, l: Life, n: nat): (Db, Reply)
    requires |l.times| == 6 && n < 6
  {
    Apply(if n == 0 then db else After(db, l, n - 1).0, Calls(l)[n])
  }

  lemma FirstHalf(db: Db, l: Life)
    requires Possible(db, l)
    ensures After(db, l, 0).1 == After(db, l, 1).1 == After(db, l, 2).1 == Accepted
    ensures var d := After(db, l, 2).0;
      && l.id in d.candidates && d.candidates[l.id] == Candidate(l.evidence, l.times[0], Proposed, 1, None, l.times[0], None, None)
      && HasGrant(d, l.id, l.receipt, l.evidence, l.times[1] + l.ttl)
      && d.events == db.events + [Event(l.id, l.evidence.ownerId, l.evidence.projectId, None, Proposed, 1, None, None, l.times[0])]
  {
    Proposes(db, l.id, l.evidence, l.times[0]);
    Asks(After(db, l, 0).0, l.id, l.receipt, l.call, l.ttl, l.times[1]);
    DecisionRecorded(After(db, l, 1).0, Calls(l)[2]);
  }

  /** From any database, a request granted and used before it expires carries a candidate through its whole life. */
  lemma GrantedRequestRunsItsCourse(db: Db, l: Life)
    requires Possible(db, l)
    ensures forall n :: 0 <= n < 6 ==> After(db, l, n).1 == Accepted
    ensures var end, e := After(db, l, 5).0, l.evidence;
      && l.id in end.candidates
      && end.candidates[l.id] == Candidate(e, l.times[0], RolledBack, 4, Some(l.receipt), l.times[5],
                                           Some(l.times[4]), Some(l.times[5]))
      && end.events == db.events +
           [Event(l.id, e.ownerId, e.projectId, None, Proposed, 1, None, None, l.times[0]),
            Event(l.id, e.ownerId, e.projectId, Some(Proposed), Approved, 2, Some(l.receipt), None, l.times[3]),
            Event(l.id, e.ownerId, e.projectId, Some(Approved), Promoted, 3, Some(l.receipt), None, l.times[4]),
            Event(l.id, e.ownerId, e.projectId, Some(Promoted), RolledBack, 4, Some(l.receipt), Some(l.remorse), l.times[5])]
  {
    FirstHalf(db, l);
    Approves(After(db, l, 2).0, l.id, l.receipt, l.times[1] + l.ttl, l.times[3]);
    Promotes(After(db, l, 3).0, l.id, l.times[4]);
    RollsBack(After(db, l, 4).0, l.id, l.remorse, l.times[5]);
    forall n | 0 <= n < 6 ensures After(db, l, n).1 == Accepted {
      assert n == 0 || n == 1 || n == 2 || n == 3 || n == 4 || n == 5;
    }
  }

  /** Expiring and cancelling settle exactly the receipts they are about. */
  lemma SettlingMeans(db: Db, s: Step, id: Id)
    requires id in db.receipts && (s.ExpireDue? || s.CancelRun?)
    ensures var before, after := db.receipts[id], Apply(db, s).0.receipts[id];
      && (s.ExpireDue? && before.status == Pending && before.expiresAt <= s.now ==> after.status == Expired)
      && (s.CancelRun? && before.status == Pending && before.userId == s.userId && before.runId == s.runId ==>
            after.status == Cancelled)
      && (s.ExpireDue? && before.expiresAt > s.now ==> after == before)
      && (s.CancelRun? && (before.userId != s.userId || before.runId != s.runId) ==> after == before)
  {
  }
}
