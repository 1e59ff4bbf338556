/**
 * The candidate service and the approval repository as they update their tables in place.
 * Each method is one transaction and is proved to do what the corresponding step describes.
 */
module CandidateStore {
  import opened Options
  import opened Candidates

  class Store {
    const evaluations: map<Id, Evaluation>
    const drifts: map<Id, Drift>
    var candidates: map<Id, Candidate>
    var receipts: map<Id, Receipt>
    var events: seq<Event>

    constructor (evaluations: map<Id, Evaluation>, drifts: map<Id, Drift>)
      ensures this.evaluations == evaluations && this.drifts == drifts
      ensures Fresh(Tables()) && Inv(Tables())
    {
      this.evaluations, this.drifts := evaluations, drifts;
      candidates, receipts, events := map[], map[], [];
    }

    ghost function Tables(): Db
      reads this
    {
      Db(evaluations, drifts, candidates, receipts, events)
    }

    method WriteEvent(id: Id, source: Option<State>, reason: Option<string>)
      requires id in candidates
      modifies this`events
      ensures events == old(events) + [EventFor(id, candidates[id], source, reason)]
    {
      var row := candidates[id];
      events := events + [Event(id, row.evidence.ownerId, row.evidence.projectId, source, row.state,
                                row.version, row.approvalId, reason, row.updatedAt)];
    }

    /** An UPDATE of the receipts, row by row in any order. */
    method UpdateReceipts(f: (Id, Receipt) -> Receipt)
      modifies this`receipts
      ensures receipts == map id | id in old(receipts) :: f(id, old(receipts)[id])
    {
      ghost var before := receipts;
      var todo := receipts.Keys;
      while todo != {}
        invariant todo <= receipts.Keys == before.Keys
        invariant forall id :: id in before ==> receipts[id] == if id in todo then before[id] else f(id, before[id])
        decreases |todo|
      {
        var id :| id in todo;
        receipts := receipts[id := f(id, receipts[id])];
        todo := todo - {id};
      }
    }

    method CancelPending(t: Target, args: Arguments, except: Option<Id>, why: string, now: Time)
      modifies this`receipts
      ensures receipts == CancelBound(old(receipts), t, args, except, why, now)
    {
      UpdateReceipts((id, r: Receipt) =>
        if r.userId == t.ownerId && r.conversationId == t.projectId && r.runId == t.candidateId &&
           r.tool == TOOL && r.arguments == args && r.status == Pending && Some(id) != except
        then r.(status := Cancelled, decidedAt := Some(now), reason := Some(why))
        else r);
    }

    method Create(id: Id, evidence: Evidence, textAccepted: bool, now: Time) returns (reply: Reply)
      modifies this
      ensures (Tables(), reply) == Apply(old(Tables()), Candidates.Create(id, evidence, textAccepted, now))
    {
      if !textAccepted {
        return Invalid;
      }
      var both := HasRun(evidence.baselineEvalId, evidence) && HasRun(evidence.candidateEvalId, evidence);
      if !both || evidence.baselineEvalId == evidence.candidateEvalId {
        return NotFound;
      }
      if evidence.driftReportId.Some? {
        var report := evidence.driftReportId.value;
        if report !in drifts || drifts[report] != Drift(evidence.ownerId, evidence.projectId,
                                                        evidence.baselineEvalId, evidence.candidateEvalId) {
          return NotFound;
        }
      }
      if id in candidates {
        return Conflict;
      }
      candidates := candidates[id := Candidate(evidence, now, Proposed, 1, None, now, None, None)];
      WriteEvent(id, None, None);
      return Accepted;
    }

    predicate HasRun(id: Id, e: Evidence) {
      id in evaluations && evaluations[id] == Evaluation(e.ownerId, e.projectId, true)
    }

    method RequestApproval(t: Target, receiptId: Id, toolCallId: Id, ttl: int, now: Time) returns (reply: Reply)
      modifies this`receipts
      ensures (Tables(), reply) ==
              Apply(old(Tables()), Candidates.RequestApproval(t, receiptId, toolCallId, ttl, now))
    {
      var found := Find(t, {Proposed});
      if !found {
        return Conflict;
      }
      if ttl <= 0 || receiptId in receipts {
        return Invalid;
      }
      receipts := receipts[receiptId :=
        Receipt(t.ownerId, t.projectId, t.candidateId, toolCallId, TOOL,
                ArgumentsFor(candidates[t.candidateId], t.candidateId, t.version), Pending, now + ttl, None, None)];
      return Accepted;
    }

    method Find(t: Target, states: set<State>) returns (found: bool)
      ensures found == Selects(Tables(), t, states)
    {
      if t.candidateId !in candidates {
        return false;
      }
      var row := candidates[t.candidateId];
      return row.evidence.ownerId == t.ownerId && row.evidence.projectId == t.projectId &&
             row.state in states && row.version == t.version;
    }

    method FindReceipt(t: Target, approvalId: Id, args: Arguments, now: Time) returns (found: bool)
      ensures found == ExactReceipt(Tables(), t, approvalId, args, now)
    {
      if approvalId !in receipts {
        return false;
      }
      var r := receipts[approvalId];
      return r.userId == t.ownerId && r.conversationId == t.projectId && r.runId == t.candidateId &&
             r.tool == TOOL && r.arguments == args && r.status == Granted && r.expiresAt > now;
    }

    method Approve(t: Target, approvalId: Id, now: Time) returns (reply: Reply)
      modifies this
      ensures (Tables(), reply) == Apply(old(Tables()), Candidates.Approve(t, approvalId, now))
    {
      var found := Find(t, {Proposed});
      if !found {
        return Conflict;
      }
      var row := candidates[t.candidateId];
      var args := ArgumentsFor(row, t.candidateId, t.version);
      var exact := FindReceipt(t, approvalId, args, now);
      if !exact {
        return Conflict;
      }
      if row.approvalId.Some? {
        return Conflict;
      }
      candidates := candidates[t.candidateId :=
        row.(state := Approved, version := t.version + 1, approvalId := Some(approvalId), updatedAt := now)];
      CancelPending(t, args, Some(approvalId), "candidate_approved_elsewhere", now);
      WriteEvent(t.candidateId, Some(Proposed), None);
      return Accepted;
    }

    method Transition(t: Target, target: State, reason: Option<string>, now: Time) returns (reply: Reply)
      modifies this
      ensures (Tables(), reply) == TransitionTx(old(Tables()), t, target, reason, now)
    {
      if reason.Some? && !ValidReason(reason.value) {
        return Invalid;
      }
      var found := Find(t, Sources(target));
      if !found {
        return Conflict;
      }
      var row := candidates[t.candidateId];
      if target == Promoted && row.approvalId == None {
        return Conflict;
      }
      var previous := row.state;
      if target == Rejected {
        CancelPending(t, ArgumentsFor(row, t.candidateId, t.version), None, "candidate_rejected", now);
      }
      row := row.(state := target, version := t.version + 1, updatedAt := now);
      if target == Promoted {
        row := row.(promotedAt := Some(now));
      } else if target == RolledBack {
        row := row.(rolledBackAt := Some(now));
      }
      candidates := candidates[t.candidateId := row];
      WriteEvent(t.candidateId, Some(previous), reason);
      return Accepted;
    }

    method Promote(t: Target, now: Time) returns (reply: Reply)
      modifies this
      ensures (Tables(), reply) == Apply(old(Tables()), Candidates.Promote(t, now))
    {
      reply := Transition(t, Promoted, None, now);
    }

    method Reject(t: Target, reason: string, now: Time) returns (reply: Reply)
      modifies this
      ensures (Tables(), reply) == Apply(old(Tables()), Candidates.Reject(t, reason, now))
    {
      reply := Transition(t, Rejected, Some(reason), now);
    }

    method Rollback(t: Target, reason: string, now: Time) returns (reply: Reply)
      modifies this
      ensures (Tables(), reply) == Apply(old(Tables()), Candidates.Rollback(t, reason, now))
    {
      reply := Transition(t, RolledBack, Some(reason), now);
    }

    method Decide(receiptId: Id, userId: Id, grant: bool, reason: string, now: Time) returns (reply: Reply)
      modifies this`receipts
      ensures (Tables(), reply) == Apply(old(Tables()), Candidates.Decide(receiptId, userId, grant, reason, now))
    {
      if !ValidReason(reason) {
        return Invalid;
      }
      if receiptId !in receipts || receipts[receiptId].userId != userId ||
         receipts[receiptId].status != Pending || receipts[receiptId].expiresAt <= now {
        return Conflict;
      }
      var status := if grant then Granted else Denied;
      receipts := receipts[receiptId := receipts[receiptId].(status := status, decidedAt := Some(now),
                                                             reason := Some(reason))];
      return Accepted;
    }

    method Settle(ids: set<Id>, status: Status, why: string, now: Time)
      modifies this`receipts
      ensures receipts == Candidates.Settle(old(receipts), ids, status, why, now)
    {
      UpdateReceipts((id, r: Receipt) =>
        if id in ids && r.status == Pending
        then r.(status := status, decidedAt := Some(now), reason := Some(why))
        else r);
    }

    method ExpireDue(now: Time) returns (reply: Reply)
      modifies this`receipts
      ensures (Tables(), reply) == Apply(old(Tables()), Candidates.ExpireDue(now))
    {
      var due := set id | id in receipts && receipts[id].expiresAt <= now;
      Settle(due, Expired, "approval_expired", now);
      return Accepted;
    }

    method CancelRun(userId: Id, runId: Id, now: Time) returns (reply: Reply)
      modifies this`receipts
      ensures (Tables(), reply) == Apply(old(Tables()), Candidates.CancelRun(userId, runId, now))
    {
      var ids := set id | id in receipts && receipts[id].userId == userId && receipts[id].runId == runId;
      Settle(ids, Cancelled, "run_cancelled", now);
      return Accepted;
    }

    /** A reservation for another tool. */
    method ReserveOther(receiptId: Id, receipt: Receipt) returns (reply: Reply)
      modifies this`receipts
      ensures (Tables(), reply) == Apply(old(Tables()), Candidates.ReserveOther(receiptId, receipt))
    {
      if receipt.tool == TOOL || receipt.status != Pending || receiptId in receipts {
        return Invalid;
      }
      receipts := receipts[receiptId := receipt];
      return Accepted;
    }
  }
}
