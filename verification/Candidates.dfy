/**
 * Optimization candidates under human approval: three tables, and each service call as one
 * atomic transaction over them.
 */
module Candidates {
  import opened Options

  type Id = string
  type Time = int

  const TOOL := "optimization.promote"

  datatype State = Proposed | Approved | Rejected | Promoted | RolledBack

  /** The columns that no update may change. */
  datatype Evidence = Evidence(ownerId: Id, projectId: Id, kind: string, summary: string,
                               metadata: string, rollbackPlan: string, targetRevision: string,
                               baselineEvalId: Id, candidateEvalId: Id, driftReportId: Option<Id>)

  datatype Candidate = Candidate(evidence: Evidence, createdAt: Time, state: State, version: nat,
                                 approvalId: Option<Id>, updatedAt: Time,
                                 promotedAt: Option<Time>, rolledBackAt: Option<Time>)

  datatype Event = Event(candidateId: Id, ownerId: Id, projectId: Id, source: Option<State>, target: State,
                         version: nat, approvalId: Option<Id>, reason: Option<string>, at: Time)

  datatype Status = Pending | Granted | Denied | Expired | Cancelled

  /** The payload that is hashed into a receipt; equal hashes stand for equal payloads. */
  datatype Arguments =
    | Promotion(ownerId: Id, projectId: Id, candidateId: Id, version: nat, targetRevision: string,
                baselineEvalId: Id, candidateEvalId: Id)
    | Other(text: string)

  datatype Receipt = Receipt(userId: Id, conversationId: Id, runId: Id, toolCallId: Id, tool: string,
                             arguments: Arguments, status: Status, expiresAt: Time,
                             decidedAt: Option<Time>, reason: Option<string>)

  datatype Evaluation = Evaluation(ownerId: Id, projectId: Id, completed: bool)

  datatype Drift = Drift(ownerId: Id, projectId: Id, baselineEvalId: Id, candidateEvalId: Id)

  datatype Db = Db(evaluations: map<Id, Evaluation>, drifts: map<Id, Drift>,
                   candidates: map<Id, Candidate>, receipts: map<Id, Receipt>, events: seq<Event>)

  datatype Reply = Accepted | Conflict | NotFound | Invalid

  /** Who calls, on which candidate, and the version the caller believes it has. */
  datatype Target = Target(ownerId: Id, projectId: Id, candidateId: Id, version: nat)

  datatype Step =
    | Create(id: Id, evidence: Evidence, textAccepted: bool, now: Time)
    | RequestApproval(target: Target, receiptId: Id, toolCallId: Id, ttl: int, now: Time)
    | Approve(target: Target, approvalId: Id, now: Time)
    | Promote(target: Target, now: Time)
    | Reject(target: Target, reason: string, now: Time)
    | Rollback(target: Target, reason: string, now: Time)
    | Decide(receiptId: Id, userId: Id, grant: bool, reason: string, now: Time)
    | ExpireDue(now: Time)
    | CancelRun(userId: Id, runId: Id, now: Time)
    | ReserveOther(receiptId: Id, receipt: Receipt)

  function ArgumentsFor(c: Candidate, id: Id, version: nat): Arguments {
    Promotion(c.evidence.ownerId, c.evidence.projectId, id, version, c.evidence.targetRevision,
              c.evidence.baselineEvalId, c.evidence.candidateEvalId)
  }

  predicate LowerCase(c: char) { 'a' <= c <= 'z' }

  predicate ReasonChar(c: char) { LowerCase(c) || '0' <= c <= '9' || c == '_' }

  predicate ValidReason(s: string) {
    1 <= |s| <= 64 && LowerCase(s[0]) && forall i :: 0 < i < |s| ==> ReasonChar(s[i])
  }

  /** The row selected by owner, project, allowed states and expected version. */
  predicate Selects(db: Db, t: Target, states: set<State>) {
    t.candidateId in db.candidates &&
    var c := db.candidates[t.candidateId];
    c.evidence.ownerId == t.ownerId && c.evidence.projectId == t.projectId &&
    c.state in states && c.version == t.version
  }

  predicate Bound(r: Receipt, t: Target, args: Arguments) {
    r.userId == t.ownerId && r.conversationId == t.projectId && r.runId == t.candidateId &&
    r.tool == TOOL && r.arguments == args
  }

  function EventFor(id: Id, c: Candidate, source: Option<State>, reason: Option<string>): Event {
    Event(id, c.evidence.ownerId, c.evidence.projectId, source, c.state, c.version, c.approvalId, reason, c.updatedAt)
  }

  function CancelOne(id: Id, r: Receipt, t: Target, args: Arguments, except: Option<Id>, why: string, now: Time): Receipt {
    if Some(id) != except && Bound(r, t, args) && r.status == Pending
    then r.(status := Cancelled, decidedAt := Some(now), reason := Some(why))
    else r
  }

  /** Pending receipts bound to the target become cancelled, except the one in use. */
  function CancelBound(receipts: map<Id, Receipt>, t: Target, args: Arguments, except: Option<Id>,
                       why: string, now: Time): map<Id, Receipt> {
    map id | id in receipts :: CancelOne(id, receipts[id], t, args, except, why, now)
  }

  predicate HasEvaluation(db: Db, id: Id, e: Evidence) {
    id in db.evaluations && db.evaluations[id] == Evaluation(e.ownerId, e.projectId, true)
  }

  predicate EvidenceFound(db: Db, e: Evidence) {
    HasEvaluation(db, e.baselineEvalId, e) && HasEvaluation(db, e.candidateEvalId, e) &&
    e.baselineEvalId != e.candidateEvalId &&
    (e.driftReportId.Some? ==>
       e.driftReportId.value in db.drifts &&
       db.drifts[e.driftReportId.value] == Drift(e.ownerId, e.projectId, e.baselineEvalId, e.candidateEvalId))
  }

  function CreateTx(db: Db, id: Id, e: Evidence, textAccepted: bool, now: Time): (Db, Reply) {
    if !textAccepted then (db, Invalid)
    else if !EvidenceFound(db, e) then (db, NotFound)
    else if id in db.candidates then (db, Conflict)
    else
      var c := Candidate(e, now, Proposed, 1, None, now, None, None);
      (db.(candidates := db.candidates[id := c], events := db.events + [EventFor(id, c, None, None)]), Accepted)
  }

  function RequestApprovalTx(db: Db, t: Target, receiptId: Id, toolCallId: Id, ttl: int, now: Time): (Db, Reply) {
    if !Selects(db, t, {Proposed}) then (db, Conflict)
    else if ttl <= 0 || receiptId in db.receipts then (db, Invalid)
    else
      var args := ArgumentsFor(db.candidates[t.candidateId], t.candidateId, t.version);
      var r := Receipt(t.ownerId, t.projectId, t.candidateId, toolCallId, TOOL, args, Pending, now + ttl, None, None);
      (db.(receipts := db.receipts[receiptId := r]), Accepted)
  }

  predicate ExactReceipt(db: Db, t: Target, approvalId: Id, args: Arguments, now: Time) {
    approvalId in db.receipts && Bound(db.receipts[approvalId], t, args) &&
    db.receipts[approvalId].status == Granted && db.receipts[approvalId].expiresAt > now
  }

  function ApproveTx(db: Db, t: Target, approvalId: Id, now: Time): (Db, Reply) {
    if !Selects(db, t, {Proposed}) then (db, Conflict)
    else
      var c := db.candidates[t.candidateId];
      var args := ArgumentsFor(c, t.candidateId, t.version);
      if !ExactReceipt(db, t, approvalId, args, now) || c.approvalId.Some? then (db, Conflict)
      else
        var c' := ApprovedRow(c, approvalId, t.version + 1, now);
        (db.(candidates := db.candidates[t.candidateId := c'],
             receipts := CancelBound(db.receipts, t, args, Some(approvalId), "candidate_approved_elsewhere", now),
             events := db.events + [EventFor(t.candidateId, c', Some(Proposed), None)]), Accepted)
  }

  function Sources(target: State): set<State> {
    match target
    case Promoted => {Approved}
    case Rejected => {Proposed, Approved}
    case RolledBack => {Promoted}
    case _ => {}
  }

  function Moved(c: Candidate, target: State, version: nat, now: Time): Candidate {
    c.(state := target, version := version, updatedAt := now,
       promotedAt := if target == Promoted then Some(now) else c.promotedAt,
       rolledBackAt := if target == RolledBack then Some(now) else c.rolledBackAt)
  }

  function TransitionTx(db: Db, t: Target, target: State, reason: Option<string>, now: Time): (Db, Reply) {
    if reason.Some? && !ValidReason(reason.value) then (db, Invalid)
    else if !Selects(db, t, Sources(target)) then (db, Conflict)
    else
      var c := db.candidates[t.candidateId];
      if target == Promoted && c.approvalId.None? then (db, Conflict)
      else
        var args := ArgumentsFor(c, t.candidateId, t.version);
        var c' := Moved(c, target, t.version + 1, now);
        (db.(candidates := db.candidates[t.candidateId := c'],
             receipts := if target == Rejected
                         then CancelBound(db.receipts, t, args, None, "candidate_rejected", now)
                         else db.receipts,
             events := db.events + [EventFor(t.candidateId, c', Some(c.state), reason)]), Accepted)
  }

  function DecideTx(db: Db, receiptId: Id, userId: Id, grant: bool, reason: string, now: Time): (Db, Reply) {
    if !ValidReason(reason) then (db, Invalid)
    else if receiptId in db.receipts && db.receipts[receiptId].userId == userId &&
            db.receipts[receiptId].status == Pending && db.receipts[receiptId].expiresAt > now then
      var r := db.receipts[receiptId].(status := if grant then Granted else Denied,
                                       decidedAt := Some(now), reason := Some(reason));
      (db.(receipts := db.receipts[receiptId := r]), Accepted)
    else (db, Conflict)
  }

  function Settle(receipts: map<Id, Receipt>, ids: set<Id>, status: Status, why: string, now: Time): map<Id, Receipt> {
    map id | id in receipts ::
      if id in ids && receipts[id].status == Pending
      then receipts[id].(status := status, decidedAt := Some(now), reason := Some(why))
      else receipts[id]
  }

  function Due(db: Db, now: Time): set<Id> {
    set id | id in db.receipts && db.receipts[id].expiresAt <= now
  }

  function OfRun(db: Db, userId: Id, runId: Id): set<Id> {
    set id | id in db.receipts && db.receipts[id].userId == userId && db.receipts[id].runId == runId
  }

  function ExpireDueTx(db: Db, now: Time): (Db, Reply) {
    (db.(receipts := Settle(db.receipts, Due(db, now), Expired, "approval_expired", now)), Accepted)
  }

  function CancelRunTx(db: Db, userId: Id, runId: Id, now: Time): (Db, Reply) {
    (db.(receipts := Settle(db.receipts, OfRun(db, userId, runId), Cancelled, "run_cancelled", now)), Accepted)
  }

  /** A receipt reserved for any other tool. */
  function ReserveOtherTx(db: Db, id: Id, r: Receipt): (Db, Reply) {
    if r.tool == TOOL || r.status != Pending || id in db.receipts then (db, Invalid)
    else (db.(receipts := db.receipts[id := r]), Accepted)
  }

  function Apply(db: Db, s: Step): (Db, Reply) {
    match s
    case Create(id, e, ok, now) => CreateTx(db, id, e, ok, now)
    case RequestApproval(t, id, call, ttl, now) => RequestApprovalTx(db, t, id, call, ttl, now)
    case Approve(t, id, now) => ApproveTx(db, t, id, now)
    case Promote(t, now) => TransitionTx(db, t, Promoted, None, now)
    case Reject(t, reason, now) => TransitionTx(db, t, Rejected, Some(reason), now)
    case Rollback(t, reason, now) => TransitionTx(db, t, RolledBack, Some(reason), now)
    case Decide(id, user, grant, reason, now) => DecideTx(db, id, user, grant, reason, now)
    case ExpireDue(now) => ExpireDueTx(db, now)
    case CancelRun(user, run, now) => CancelRunTx(db, user, run, now)
    case ReserveOther(id, r) => ReserveOtherTx(db, id, r)
  }

  /** The database after a run of transactions, starting without candidates or receipts. */
  ghost function Run(db: Db, steps: seq<Step>): Db {
    if steps == [] then db else Apply(Run(db, steps[..|steps| - 1]), steps[|steps| - 1]).0
  }

  ghost predicate Fresh(db: Db) {
    db.candidates == map[] && db.receipts == map[] && db.events == []
  }

  // ----- The database guard of migration 14 -----

  predicate TransitionAllowed(old_: Candidate, new_: Candidate) {
    || (old_.state == Proposed && new_.state == Approved && old_.approvalId.None? && new_.approvalId.Some?)
    || (old_.state == Proposed && new_.state == Rejected && new_.approvalId == old_.approvalId)
    || (old_.state == Approved && new_.state in {Promoted, Rejected} && new_.approvalId == old_.approvalId)
    || (old_.state == Promoted && new_.state == RolledBack && new_.approvalId == old_.approvalId)
  }

  predicate Guard(old_: Candidate, new_: Candidate) {
    && new_.evidence == old_.evidence && new_.createdAt == old_.createdAt
    && new_.version == old_.version + 1
    && TransitionAllowed(old_, new_)
  }

  /** Every transaction leaves each row alone or makes one update that the guard admits. */
  lemma GuardAdmits(db: Db, s: Step, id: Id)
    requires id in db.candidates
    ensures id in Apply(db, s).0.candidates
    ensures Apply(db, s).0.candidates[id] == db.candidates[id] ||
            Guard(db.candidates[id], Apply(db, s).0.candidates[id])
  {
  }

  // ----- Events of one candidate -----

  ghost function History(events: seq<Event>, id: Id): seq<Event> {
    if events == [] then []
    else
      var last := events[|events| - 1];
      History(events[..|events| - 1], id) + if last.candidateId == id then [last] else []
  }

  lemma HistoryAppend(events: seq<Event>, e: Event, id: Id)
    ensures History(events + [e], id) == History(events, id) + if e.candidateId == id then [e] else []
  {
    assert (events + [e])[..|events|] == events;
  }

  ghost predicate Linked(h: seq<Event>) {
    && (forall i :: 0 <= i < |h| ==> h[i].version == i + 1)
    && (forall i :: 0 < i < |h| ==> h[i].source == Some(h[i - 1].target))
    && (h != [] ==> h[0].source == None && h[0].target == Proposed)
  }

  predicate VersionFits(state: State, version: nat) {
    match state
    case Proposed => version == 1
    case Approved => version == 2
    case Promoted => version == 3
    case RolledBack => version == 4
    case Rejected => version == 2 || version == 3
  }

  /** The event log of a candidate retells its whole life and ends in its current row. */
  ghost predicate Told(c: Candidate, id: Id, h: seq<Event>) {
    && |h| == c.version >= 1 && Linked(h)
    && (forall i :: 0 <= i < |h| ==>
          h[i].candidateId == id && h[i].ownerId == c.evidence.ownerId && h[i].projectId == c.evidence.projectId)
    && h[|h| - 1].target == c.state && h[|h| - 1].approvalId == c.approvalId && h[|h| - 1].at == c.updatedAt
    && VersionFits(c.state, c.version)
    && c.promotedAt == (if c.state in {Promoted, RolledBack} then Some(h[2].at) else None)
    && c.rolledBackAt == (if c.state == RolledBack then Some(h[3].at) else None)
  }

  ghost predicate HeldApproval(db: Db, id: Id, c: Candidate, h: seq<Event>, r: Id) {
    && r in db.receipts && db.receipts[r].status == Granted
    && Bound(db.receipts[r], Target(c.evidence.ownerId, c.evidence.projectId, id, 1), ArgumentsFor(c, id, 1))
    && |h| >= 2 && h[1].target == Approved && h[1].approvalId == Some(r) && h[1].at < db.receipts[r].expiresAt
  }

  ghost predicate Consent(db: Db, id: Id, c: Candidate, h: seq<Event>) {
    && (c.approvalId.None? <==> c.state == Proposed || (c.state == Rejected && c.version == 2))
    && (c.approvalId.Some? ==> HeldApproval(db, id, c, h, c.approvalId.value))
  }

  ghost predicate ReceiptFits(db: Db, r: Receipt) {
    r.tool == TOOL ==>
      && r.runId in db.candidates
      && var c := db.candidates[r.runId];
      && Bound(r, Target(c.evidence.ownerId, c.evidence.projectId, r.runId, 1), ArgumentsFor(c, r.runId, 1))
      && (r.status == Pending ==> c.state == Proposed)
  }

  ghost predicate CandidateFits(db: Db, id: Id)
    requires id in db.candidates
  {
    Told(db.candidates[id], id, History(db.events, id)) &&
    Consent(db, id, db.candidates[id], History(db.events, id))
  }

  ghost predicate Inv(db: Db) {
    && (forall id :: id in db.candidates ==> CandidateFits(db, id))
    && (forall id :: id !in db.candidates ==> History(db.events, id) == [])
    && (forall id :: id in db.receipts ==> ReceiptFits(db, db.receipts[id]))
  }

  // ----- Every transaction keeps the invariant -----

  /** Receipts may be added or leave Pending; a decided receipt never changes. */
  ghost predicate Settles(a: map<Id, Receipt>, b: map<Id, Receipt>) {
    forall id :: id in a ==> id in b && SettlesTo(a[id], b[id])
  }

  ghost predicate SettlesTo(a: Receipt, b: Receipt) {
    b == a || (a.status == Pending && b.status != Pending &&
               b == a.(status := b.status, decidedAt := b.decidedAt, reason := b.reason))
  }

  lemma OtherKeeps(db: Db, db': Db, id: Id)
    requires Inv(db) && id in db.candidates && id in db'.candidates && db'.candidates[id] == db.candidates[id]
    requires Settles(db.receipts, db'.receipts) && History(db'.events, id) == History(db.events, id)
    ensures CandidateFits(db', id)
  {
    assert CandidateFits(db, id);
  }

  /** Transactions that only touch receipts. */
  lemma ReceiptsKeep(db: Db, db': Db)
    requires Inv(db) && db'.candidates == db.candidates && db'.events == db.events
    requires Settles(db.receipts, db'.receipts)
    requires forall id :: id in db'.receipts && id !in db.receipts ==> ReceiptFits(db, db'.receipts[id])
    ensures Inv(db')
  {
    forall id | id in db'.candidates ensures CandidateFits(db', id) {
      OtherKeeps(db, db', id);
    }
    forall id | id in db'.receipts ensures ReceiptFits(db', db'.receipts[id]) {
      if id in db.receipts {
        assert ReceiptFits(db, db.receipts[id]);
      } else {
        assert ReceiptFits(db, db'.receipts[id]);
      }
    }
  }

  lemma CreateTells(db: Db, id: Id, e: Evidence, now: Time, x: Id)
    requires Inv(db) && id !in db.candidates && EvidenceFound(db, e)
    ensures var db' := CreateTx(db, id, e, true, now).0;
      if x in db'.candidates then CandidateFits(db', x) else History(db'.events, x) == []
  {
    var db' := CreateTx(db, id, e, true, now).0;
    var c := Candidate(e, now, Proposed, 1, None, now, None, None);
    var event := EventFor(id, c, None, None);
    assert db'.events == db.events + [event] && db'.candidates == db.candidates[id := c];
    HistoryAppend(db.events, event, x);
    if x == id {
      NewbornTold(id, c, event);
    } else if x in db.candidates {
      OtherKeeps(db, db', x);
    }
  }

  lemma NewbornTold(id: Id, c: Candidate, event: Event)
    requires c == Candidate(c.evidence, c.createdAt, Proposed, 1, None, c.createdAt, None, None)
    requires event == EventFor(id, c, None, None)
    ensures Told(c, id, [event])
  {
  }

  lemma CreateKeeps(db: Db, id: Id, e: Evidence, ok: bool, now: Time)
    requires Inv(db)
    ensures Inv(CreateTx(db, id, e, ok, now).0)
  {
    var (db', reply) := CreateTx(db, id, e, ok, now);
    if reply == Accepted {
      forall x ensures if x in db'.candidates then CandidateFits(db', x) else History(db'.events, x) == [] {
        CreateTells(db, id, e, now, x);
      }
      forall x | x in db'.receipts ensures ReceiptFits(db', db'.receipts[x]) {
        assert ReceiptFits(db, db.receipts[x]);
      }
    }
  }

  /** One row moves on, one event is written, and the bound pending receipts are settled. */
  ghost predicate MovesOn(db: Db, db': Db, id: Id, event: Event) {
    && id in db.candidates && id in db'.candidates
    && db'.candidates == db.candidates[id := db'.candidates[id]]
    && db'.candidates[id].evidence == db.candidates[id].evidence
    && event.candidateId == id && db'.events == db.events + [event]
    && db'.receipts.Keys == db.receipts.Keys && Settles(db.receipts, db'.receipts)
  }

  ghost predicate NothingPending(receipts: map<Id, Receipt>, id: Id) {
    forall r :: r in receipts && receipts[r].tool == TOOL && receipts[r].runId == id ==>
                  receipts[r].status != Pending
  }

  lemma MoveReceipt(db: Db, db': Db, id: Id, event: Event, r: Id)
    requires MovesOn(db, db', id, event) && NothingPending(db'.receipts, id)
    requires r in db.receipts && ReceiptFits(db, db.receipts[r])
    ensures ReceiptFits(db', db'.receipts[r])
  {
    assert SettlesTo(db.receipts[r], db'.receipts[r]);
  }

  lemma MoveKeeps(db: Db, db': Db, id: Id, event: Event)
    requires Inv(db) && MovesOn(db, db', id, event) && NothingPending(db'.receipts, id)
    requires Told(db'.candidates[id], id, History(db.events, id) + [event])
    requires Consent(db', id, db'.candidates[id], History(db.events, id) + [event])
    ensures Inv(db')
  {
    forall x ensures x in db'.candidates ==> CandidateFits(db', x)
             ensures x !in db'.candidates ==> History(db'.events, x) == []
    {
      HistoryAppend(db.events, event, x);
      if x in db.candidates && x != id { OtherKeeps(db, db', x); }
    }
    forall r | r in db'.receipts ensures ReceiptFits(db', db'.receipts[r]) {
      MoveReceipt(db, db', id, event, r);
    }
  }

  /** A receipt bound to the candidate at version 1 is either settled or was not pending. */
  lemma CancelledOrSettled(db: Db, id: Id, except: Option<Id>, why: string, now: Time)
    requires Inv(db) && id in db.candidates
    requires except.Some? && except.value in db.receipts ==> db.receipts[except.value].status != Pending
    ensures var c := db.candidates[id];
      var t := Target(c.evidence.ownerId, c.evidence.projectId, id, c.version);
      var rs := CancelBound(db.receipts, t, ArgumentsFor(c, id, c.version), except, why, now);
      rs.Keys == db.receipts.Keys && Settles(db.receipts, rs) &&
      (c.state in {Proposed, Approved} ==> NothingPending(rs, id))
  {
    var c := db.candidates[id];
    assert CandidateFits(db, id);
    var t := Target(c.evidence.ownerId, c.evidence.projectId, id, c.version);
    var rs := CancelBound(db.receipts, t, ArgumentsFor(c, id, c.version), except, why, now);
    forall r | c.state in {Proposed, Approved} && r in rs && rs[r].tool == TOOL && rs[r].runId == id
      ensures rs[r].status != Pending
    {
      assert ReceiptFits(db, db.receipts[r]);
    }
  }

  function ApprovedRow(c: Candidate, approvalId: Id, version: nat, now: Time): Candidate {
    c.(state := Approved, version := version, approvalId := Some(approvalId), updatedAt := now)
  }

  lemma ApprovedTold(c: Candidate, id: Id, h: seq<Event>, approvalId: Id, now: Time)
    requires Told(c, id, h) && c.state == Proposed
    ensures var c' := ApprovedRow(c, approvalId, c.version + 1, now);
      c.version == 1 && Told(c', id, h + [EventFor(id, c', Some(Proposed), None)])
  {
  }

  lemma ApprovedConsent(db: Db, c: Candidate, id: Id, h: seq<Event>, approvalId: Id, now: Time)
    requires c.version == 1 == |h|
    requires approvalId in db.receipts && db.receipts[approvalId].status == Granted
    requires Bound(db.receipts[approvalId], Target(c.evidence.ownerId, c.evidence.projectId, id, 1), ArgumentsFor(c, id, 1))
    requires now < db.receipts[approvalId].expiresAt
    ensures var c' := ApprovedRow(c, approvalId, 2, now);
      Consent(db, id, c', h + [EventFor(id, c', Some(Proposed), None)])
  {
  }

  lemma ApproveKeeps(db: Db, t: Target, approvalId: Id, now: Time)
    requires Inv(db)
    ensures Inv(ApproveTx(db, t, approvalId, now).0)
  {
    var (db', reply) := ApproveTx(db, t, approvalId, now);
    if reply == Accepted {
      var id := t.candidateId;
      var c, h := db.candidates[id], History(db.events, id);
      assert CandidateFits(db, id);
      ApprovedTold(c, id, h, approvalId, now);
      CancelledOrSettled(db, id, Some(approvalId), "candidate_approved_elsewhere", now);
      ApprovedConsent(db', c, id, h, approvalId, now);
      MoveKeeps(db, db', id, EventFor(id, db'.candidates[id], Some(Proposed), None));
    }
  }

  lemma MovedTold(c: Candidate, id: Id, h: seq<Event>, target: State, reason: Option<string>, now: Time)
    requires Told(c, id, h) && c.state in Sources(target)
    ensures var c' := Moved(c, target, c.version + 1, now);
      Told(c', id, h + [EventFor(id, c', Some(c.state), reason)])
  {
  }

  lemma MovedConsent(db: Db, db': Db, c: Candidate, id: Id, h: seq<Event>, target: State, event: Event, now: Time)
    requires Consent(db, id, c, h) && Told(c, id, h) && c.state in Sources(target)
    requires Settles(db.receipts, db'.receipts)
    ensures Consent(db', id, Moved(c, target, c.version + 1, now), h + [event])
  {
    if c.approvalId.Some? {
      assert SettlesTo(db.receipts[c.approvalId.value], db'.receipts[c.approvalId.value]);
    }
  }

  lemma TransitionSettles(db: Db, t: Target, target: State, reason: Option<string>, now: Time)
    requires Inv(db) && TransitionTx(db, t, target, reason, now).1 == Accepted
    ensures var rs := TransitionTx(db, t, target, reason, now).0.receipts;
      rs.Keys == db.receipts.Keys && Settles(db.receipts, rs) && NothingPending(rs, t.candidateId)
  {
    CancelledOrSettled(db, t.candidateId, None, "candidate_rejected", now);
    if target != Rejected { NonePendingYet(db, t.candidateId); }
  }

  lemma TransitionKeeps(db: Db, t: Target, target: State, reason: Option<string>, now: Time)
    requires Inv(db)
    ensures Inv(TransitionTx(db, t, target, reason, now).0)
  {
    var (db', reply) := TransitionTx(db, t, target, reason, now);
    if reply == Accepted {
      var id := t.candidateId;
      var c, h := db.candidates[id], History(db.events, id);
      var event := EventFor(id, db'.candidates[id], Some(c.state), reason);
      assert CandidateFits(db, id);
      TransitionSettles(db, t, target, reason, now);
      MovedTold(c, id, h, target, reason, now);
      MovedConsent(db, db', c, id, h, target, event, now);
      MoveKeeps(db, db', id, event);
    }
  }

  lemma NonePendingYet(db: Db, id: Id)
    requires Inv(db) && id in db.candidates && db.candidates[id].state != Proposed
    ensures NothingPending(db.receipts, id)
  {
    forall r | r in db.receipts && db.receipts[r].tool == TOOL && db.receipts[r].runId == id
      ensures db.receipts[r].status != Pending
    {
      assert ReceiptFits(db, db.receipts[r]);
    }
  }

  lemma RequestKeeps(db: Db, t: Target, id: Id, call: Id, ttl: int, now: Time)
    requires Inv(db)
    ensures Inv(RequestApprovalTx(db, t, id, call, ttl, now).0)
  {
    var (db', reply) := RequestApprovalTx(db, t, id, call, ttl, now);
    if reply == Accepted {
      assert CandidateFits(db, t.candidateId);
      assert ReceiptFits(db, db'.receipts[id]);
      ReceiptsKeep(db, db');
    }
  }

  lemma DecideKeeps(db: Db, id: Id, user: Id, grant: bool, reason: string, now: Time)
    requires Inv(db)
    ensures Inv(DecideTx(db, id, user, grant, reason, now).0)
  {
    ReceiptsKeep(db, DecideTx(db, id, user, grant, reason, now).0);
  }

  lemma SettleKeeps(db: Db, ids: set<Id>, status: Status, why: string, now: Time)
    requires Inv(db) && status != Pending
    ensures Inv(db.(receipts := Settle(db.receipts, ids, status, why, now)))
  {
    ReceiptsKeep(db, db.(receipts := Settle(db.receipts, ids, status, why, now)));
  }

  lemma ReserveKeeps(db: Db, id: Id, r: Receipt)
    requires Inv(db)
    ensures Inv(ReserveOtherTx(db, id, r).0)
  {
    ReceiptsKeep(db, ReserveOtherTx(db, id, r).0);
  }

  /** The invariant holds after every transaction. */
  lemma ApplyKeeps(db: Db, s: Step)
    requires Inv(db)
    ensures Inv(Apply(db, s).0)
  {
    match s
    case Create(id, e, ok, now) => CreateKeeps(db, id, e, ok, now);
    case Approve(t, id, now) => ApproveKeeps(db, t, id, now);
    case Promote(t, now) => TransitionKeeps(db, t, Promoted, None, now);
    case Reject(t, reason, now) => TransitionKeeps(db, t, Rejected, Some(reason), now);
    case Rollback(t, reason, now) => TransitionKeeps(db, t, RolledBack, Some(reason), now);
    case RequestApproval(t, id, call, ttl, now) => RequestKeeps(db, t, id, call, ttl, now);
    case Decide(id, user, grant, reason, now) => DecideKeeps(db, id, user, grant, reason, now);
    case ExpireDue(now) => SettleKeeps(db, Due(db, now), Expired, "approval_expired", now);
    case CancelRun(user, run, now) => SettleKeeps(db, OfRun(db, user, run), Cancelled, "run_cancelled", now);
    case ReserveOther(id, r) => ReserveKeeps(db, id, r);
  }

  lemma {:induction false} RunKeeps(db: Db, steps: seq<Step>)
    requires Fresh(db)
    ensures Inv(Run(db, steps))
  {
    if steps != [] {
      RunKeeps(db, steps[..|steps| - 1]);
      ApplyKeeps(Run(db, steps[..|steps| - 1]), steps[|steps| - 1]);
    }
  }

  // ----- Why a receipt is no longer pending -----

  /** The only steps that move a receipt out of pending, each under its own condition. */
  ghost predicate Causes(s: Step, id: Id, before: Receipt, after: Receipt) {
    match after.status
    case Pending => false
    case Granted => s.Decide? && s.receiptId == id && s.userId == before.userId && s.grant && s.now < before.expiresAt
    case Denied => s.Decide? && s.receiptId == id && s.userId == before.userId && !s.grant && s.now < before.expiresAt
    case Expired => s.ExpireDue? && before.expiresAt <= s.now
    case Cancelled =>
      || (s.CancelRun? && s.userId == before.userId && s.runId == before.runId)
      || (s.Approve? && s.approvalId != id && Concerns(s.target, before))
      || (s.Reject? && Concerns(s.target, before))
  }

  /** The receipt asks for the promotion of just that candidate at that version. */
  ghost predicate Concerns(t: Target, r: Receipt) {
    && r.tool == TOOL && r.userId == t.ownerId && r.conversationId == t.projectId && r.runId == t.candidateId
    && r.arguments.Promotion? && r.arguments.candidateId == t.candidateId && r.arguments.version == t.version
  }

  lemma StepCauses(db: Db, s: Step, id: Id)
    requires id in db.receipts && Apply(db, s).0.receipts[id] != db.receipts[id]
    ensures db.receipts[id].status == Pending && Apply(db, s).1 == Accepted
    ensures Causes(s, id, db.receipts[id], Apply(db, s).0.receipts[id])
  {
  }

  lemma NewIsPending(db: Db, s: Step, id: Id)
    requires id !in db.receipts && id in Apply(db, s).0.receipts
    ensures Apply(db, s).0.receipts[id].status == Pending
  {
  }

  /** Step k of the run settled the receipt, which was pending until then, as it is at the end. */
  ghost predicate SettledAt(db: Db, steps: seq<Step>, id: Id, k: nat) {
    && k < |steps| && id in Run(db, steps[..k]).receipts && id in Run(db, steps).receipts
    && Run(db, steps[..k]).receipts[id].status == Pending
    && Apply(Run(db, steps[..k]), steps[k]).1 == Accepted
    && Causes(steps[k], id, Run(db, steps[..k]).receipts[id], Run(db, steps).receipts[id])
  }

  lemma SettledEarlier(db: Db, steps: seq<Step>, id: Id, k: nat)
    requires steps != [] && SettledAt(db, steps[..|steps| - 1], id, k)
    requires id in Run(db, steps).receipts && Run(db, steps).receipts[id] == Run(db, steps[..|steps| - 1]).receipts[id]
    ensures SettledAt(db, steps, id, k)
  {
    assert steps[..|steps| - 1][..k] == steps[..k];
  }

  lemma ReceiptStays(db: Db, s: Step, id: Id)
    requires id in db.receipts
    ensures id in Apply(db, s).0.receipts
  {
  }

  lemma SettledNow(db: Db, steps: seq<Step>, id: Id)
    requires steps != [] && id in Run(db, steps[..|steps| - 1]).receipts && id in Run(db, steps).receipts
    requires Run(db, steps).receipts[id] != Run(db, steps[..|steps| - 1]).receipts[id]
    ensures SettledAt(db, steps, id, |steps| - 1)
  {
    StepCauses(Run(db, steps[..|steps| - 1]), steps[|steps| - 1], id);
  }

  /** In every run, a receipt that is not pending was settled by a step that may settle it so. */
  lemma {:induction false} SettledBySomeStep(db: Db, steps: seq<Step>, id: Id) returns (k: nat)
    requires Fresh(db) && id in Run(db, steps).receipts && Run(db, steps).receipts[id].status != Pending
    ensures SettledAt(db, steps, id, k)
  {
    var front := steps[..|steps| - 1];
    if id !in Run(db, front).receipts {
      NewIsPending(Run(db, front), steps[|steps| - 1], id);
      assert false;
    } else {
      ReceiptStays(Run(db, front), steps[|steps| - 1], id);
      if Run(db, steps).receipts[id] == Run(db, front).receipts[id] {
        k := SettledBySomeStep(db, front, id);
        SettledEarlier(db, steps, id, k);
      } else {
        SettledNow(db, steps, id);
        k := |steps| - 1;
      }
    }
  }

  lemma DecisionStands(db: Db, steps: seq<Step>, k: nat)
    requires k < |steps| && steps[k].Decide? && Apply(Run(db, steps[..k]), steps[k]).1 == Accepted
    ensures steps[k].receiptId in Run(db, steps).receipts
    ensures Run(db, steps).receipts[steps[k].receiptId].status == if steps[k].grant then Granted else Denied
  {
    var id := steps[k].receiptId;
    RunStep(db, steps, k);
    DecisionRecorded(Run(db, steps[..k]), steps[k]);
    RunGrows(db, steps, k + 1, id);
    assert SettlesTo(Run(db, steps[..k + 1]).receipts[id], Run(db, steps).receipts[id]);
  }

  /** A decision is accepted exactly on a pending, unexpired receipt of the deciding user, and records that decision. */
  lemma DecisionRecorded(db: Db, s: Step)
    requires s.Decide?
    ensures Apply(db, s).1 == Accepted <==>
      && ValidReason(s.reason) && s.receiptId in db.receipts
      && db.receipts[s.receiptId].userId == s.userId && db.receipts[s.receiptId].status == Pending
      && s.now < db.receipts[s.receiptId].expiresAt
    ensures Apply(db, s).1 == Accepted ==>
      && Apply(db, s).0 == db.(receipts := Apply(db, s).0.receipts)
      && Apply(db, s).0.receipts == db.receipts[s.receiptId := db.receipts[s.receiptId].(
           status := if s.grant then Granted else Denied, decidedAt := Some(s.now), reason := Some(s.reason))]
    ensures Apply(db, s).1 != Accepted ==> Apply(db, s).0 == db
  {
  }

  /** Step m of the run approved the candidate with the receipt it still holds. */
  ghost predicate ApprovedAt(db: Db, steps: seq<Step>, id: Id, m: nat) {
    && m < |steps| && id in Run(db, steps).candidates && Run(db, steps).candidates[id].approvalId.Some?
    && var r, c := Run(db, steps).candidates[id].approvalId.value, Run(db, steps).candidates[id];
    && steps[m].Approve? && steps[m].approvalId == r
    && steps[m].target == Target(c.evidence.ownerId, c.evidence.projectId, id, 1)
    && Apply(Run(db, steps[..m]), steps[m]).1 == Accepted
    && r in Run(db, steps[..m]).receipts && Run(db, steps[..m]).receipts[r].status == Granted
    && steps[m].now < Run(db, steps[..m]).receipts[r].expiresAt
  }

  lemma OnlyApproveNames(db: Db, s: Step, id: Id)
    requires id in Apply(db, s).0.candidates && Apply(db, s).0.candidates[id].approvalId.Some?
    requires id in db.candidates ==> db.candidates[id].approvalId != Apply(db, s).0.candidates[id].approvalId
    ensures s.Approve? && s.target.candidateId == id && Apply(db, s).1 == Accepted
  {
  }

  lemma ApproveNames(db: Db, t: Target, approvalId: Id, now: Time)
    requires ApproveTx(db, t, approvalId, now).1 == Accepted
    requires t.candidateId in db.candidates && db.candidates[t.candidateId].state == Proposed ==>
      db.candidates[t.candidateId].version == 1
    ensures var after := ApproveTx(db, t, approvalId, now).0.candidates;
      && t.candidateId in after && after[t.candidateId].approvalId == Some(approvalId)
      && var e := after[t.candidateId].evidence;
      && t == Target(e.ownerId, e.projectId, t.candidateId, 1)
      && approvalId in db.receipts && db.receipts[approvalId].status == Granted
      && now < db.receipts[approvalId].expiresAt
  {
  }

  lemma StepApproves(db: Db, s: Step, id: Id)
    requires id in db.candidates && db.candidates[id].state == Proposed ==> db.candidates[id].version == 1
    requires id in Apply(db, s).0.candidates && Apply(db, s).0.candidates[id].approvalId.Some?
    requires id in db.candidates ==> db.candidates[id].approvalId != Apply(db, s).0.candidates[id].approvalId
    ensures var c := Apply(db, s).0.candidates[id];
      && s.Approve? && Apply(db, s).1 == Accepted && c.approvalId == Some(s.approvalId)
      && s.target == Target(c.evidence.ownerId, c.evidence.projectId, id, 1)
      && s.approvalId in db.receipts && db.receipts[s.approvalId].status == Granted
      && s.now < db.receipts[s.approvalId].expiresAt
  {
    OnlyApproveNames(db, s, id);
    ApproveNames(db, s.target, s.approvalId, s.now);
  }

  lemma ApprovedEarlier(db: Db, steps: seq<Step>, id: Id, m: nat)
    requires steps != [] && ApprovedAt(db, steps[..|steps| - 1], id, m)
    requires id in Run(db, steps).candidates
    requires Run(db, steps).candidates[id].approvalId == Run(db, steps[..|steps| - 1]).candidates[id].approvalId
    requires Run(db, steps).candidates[id].evidence == Run(db, steps[..|steps| - 1]).candidates[id].evidence
    ensures ApprovedAt(db, steps, id, m)
  {
    assert steps[..|steps| - 1][..m] == steps[..m];
  }

  lemma {:induction false} ApprovedBySomeStep(db: Db, steps: seq<Step>, id: Id) returns (m: nat)
    requires Fresh(db) && id in Run(db, steps).candidates && Run(db, steps).candidates[id].approvalId.Some?
    ensures ApprovedAt(db, steps, id, m)
  {
    var front := steps[..|steps| - 1];
    var last := steps[|steps| - 1];
    RunKeeps(db, front);
    if id in Run(db, front).candidates && Run(db, front).candidates[id].approvalId == Run(db, steps).candidates[id].approvalId {
      GuardAdmits(Run(db, front), last, id);
      m := ApprovedBySomeStep(db, front, id);
      ApprovedEarlier(db, steps, id, m);
    } else {
      if id in Run(db, front).candidates { assert CandidateFits(Run(db, front), id); }
      StepApproves(Run(db, front), last, id);
      m := |steps| - 1;
    }
  }

  // ----- What every run guarantees -----

  /**
   * A released candidate holds a receipt granted and unexpired when it was approved, for exactly
   * it.  Its user granted it by an accepted decision before the approval, and no decision ever
   * denied it.
   */
  lemma ReleasedOnlyWithConsent(db: Db, steps: seq<Step>, id: Id) returns (r: Id, k: nat, m: nat)
    requires Fresh(db) && id in Run(db, steps).candidates
    requires Run(db, steps).candidates[id].state in {Approved, Promoted, RolledBack}
    ensures var end := Run(db, steps);
      && end.candidates[id].approvalId == Some(r)
      && HeldApproval(end, id, end.candidates[id], History(end.events, id), r)
    ensures k < m && ApprovedAt(db, steps, id, m) && steps[m].approvalId == r
    ensures GrantedAt(db, steps, r, k) && steps[k].userId == Run(db, steps).candidates[id].evidence.ownerId
    ensures forall j :: !DeniedAt(db, steps, r, j)
  {
    RunKeeps(db, steps);
    assert CandidateFits(Run(db, steps), id);
    r := Run(db, steps).candidates[id].approvalId.value;
    m := ApprovedBySomeStep(db, steps, id);
    k := SettledBySomeStep(db, steps[..m], r);
    assert steps[..m][..k] == steps[..k];
    GrantStands(db, steps, r, k);
    forall j ensures !DeniedAt(db, steps, r, j) {
      if DeniedAt(db, steps, r, j) { DecisionStands(db, steps, j); }
    }
  }

  /** Step k accepted the grant of a pending, unexpired receipt by its user. */
  ghost predicate GrantedAt(db: Db, steps: seq<Step>, id: Id, k: nat) {
    && k < |steps| && steps[k].Decide? && steps[k].receiptId == id && steps[k].grant
    && Apply(Run(db, steps[..k]), steps[k]).1 == Accepted
    && id in Run(db, steps[..k]).receipts && Run(db, steps[..k]).receipts[id].status == Pending
    && steps[k].userId == Run(db, steps[..k]).receipts[id].userId && steps[k].now < Run(db, steps[..k]).receipts[id].expiresAt
  }

  ghost predicate DeniedAt(db: Db, steps: seq<Step>, id: Id, k: nat) {
    && k < |steps| && steps[k].Decide? && steps[k].receiptId == id && !steps[k].grant
    && Apply(Run(db, steps[..k]), steps[k]).1 == Accepted
  }

  lemma GrantStands(db: Db, steps: seq<Step>, id: Id, k: nat)
    requires GrantedAt(db, steps, id, k)
    ensures id in Run(db, steps).receipts && Run(db, steps).receipts[id].userId == steps[k].userId
  {
    RunGrows(db, steps, k, id);
    assert SettlesTo(Run(db, steps[..k]).receipts[id], Run(db, steps).receipts[id]);
  }

  lemma ReceiptServesOne(db: Db, steps: seq<Step>, a: Id, b: Id)
    requires Fresh(db) && a in Run(db, steps).candidates && b in Run(db, steps).candidates
    requires Run(db, steps).candidates[a].approvalId.Some?
    requires Run(db, steps).candidates[a].approvalId == Run(db, steps).candidates[b].approvalId
    ensures a == b
  {
    RunKeeps(db, steps);
    assert CandidateFits(Run(db, steps), a) && CandidateFits(Run(db, steps), b);
  }

  lemma NothingPendingAfterProposal(db: Db, steps: seq<Step>, id: Id)
    requires Fresh(db) && id in Run(db, steps).candidates
    requires Run(db, steps).candidates[id].state != Proposed
    ensures NothingPending(Run(db, steps).receipts, id)
  {
    RunKeeps(db, steps);
    NonePendingYet(Run(db, steps), id);
  }

  /** Version, event count and state march together, and no candidate makes a fifth step. */
  lemma LogTellsTheLife(db: Db, steps: seq<Step>, id: Id)
    requires Fresh(db) && id in Run(db, steps).candidates
    ensures var end := Run(db, steps);
      var c, h := end.candidates[id], History(end.events, id);
      1 <= |h| == c.version <= 4 && Linked(h) && h[|h| - 1].target == c.state && VersionFits(c.state, c.version)
  {
    RunKeeps(db, steps);
    assert CandidateFits(Run(db, steps), id);
  }

  /** The target of a step that moves a candidate on. */
  function Moves(s: Step): Option<Target> {
    match s
    case Approve(t, _, _) => Some(t)
    case Promote(t, _) => Some(t)
    case Reject(t, _, _) => Some(t)
    case Rollback(t, _, _) => Some(t)
    case _ => None
  }

  lemma {:induction false} RunGrows(db: Db, steps: seq<Step>, i: nat, id: Id)
    requires i <= |steps|
    ensures Run(db, steps[..i]).events <= Run(db, steps).events
    ensures id in Run(db, steps[..i]).candidates ==>
      id in Run(db, steps).candidates &&
      Run(db, steps[..i]).candidates[id].version <= Run(db, steps).candidates[id].version
    ensures Settles(Run(db, steps[..i]).receipts, Run(db, steps).receipts)
    decreases |steps|
  {
    if i == |steps| {
      assert steps[..i] == steps;
    } else {
      var front := steps[..|steps| - 1];
      assert front[..i] == steps[..i];
      RunGrows(db, front, i, id);
      StepGrows(Run(db, front), steps[|steps| - 1], id);
      SettlesTransitive(Run(db, steps[..i]).receipts, Run(db, front).receipts, Run(db, steps).receipts);
    }
  }

  lemma SettlesTransitive(a: map<Id, Receipt>, b: map<Id, Receipt>, c: map<Id, Receipt>)
    requires Settles(a, b) && Settles(b, c)
    ensures Settles(a, c)
  {
    forall id | id in a ensures id in c && SettlesTo(a[id], c[id]) {
      assert SettlesTo(a[id], b[id]) && SettlesTo(b[id], c[id]);
    }
  }

  lemma StepGrows(db: Db, s: Step, id: Id)
    ensures var db' := Apply(db, s).0;
      db.events <= db'.events && Settles(db.receipts, db'.receipts) &&
      (id in db.candidates ==> id in db'.candidates && db.candidates[id].version <= db'.candidates[id].version)
  {
    if id in db.candidates { GuardAdmits(db, s, id); }
  }

  /** A call that moves a candidate found it at the expected version and leaves it one later. */
  lemma MoveBumps(db: Db, s: Step)
    requires Moves(s).Some? && Apply(db, s).1 == Accepted
    ensures var t, db' := Moves(s).value, Apply(db, s).0;
      && t.candidateId in db.candidates && db.candidates[t.candidateId].version == t.version
      && t.candidateId in db'.candidates && db'.candidates[t.candidateId].version == t.version + 1
  {
  }

  lemma RunStep(db: Db, steps: seq<Step>, i: nat)
    requires i < |steps|
    ensures Run(db, steps[..i + 1]) == Apply(Run(db, steps[..i]), steps[i]).0
  {
    assert steps[..i + 1][..i] == steps[..i];
  }

  /** Optimistic locking: of all calls sharing an expected version, at most one ever moves the candidate. */
  lemma AtMostOneMove(db: Db, steps: seq<Step>, i: nat, j: nat)
    requires i < j < |steps|
    requires Moves(steps[i]).Some? && Moves(steps[j]).Some?
    requires Moves(steps[i]).value.candidateId == Moves(steps[j]).value.candidateId
    requires Moves(steps[i]).value.version == Moves(steps[j]).value.version
    requires Apply(Run(db, steps[..i]), steps[i]).1 == Accepted
    ensures Apply(Run(db, steps[..j]), steps[j]).1 != Accepted
  {
    var id := Moves(steps[i]).value.candidateId;
    assert steps[..j][..i + 1] == steps[..i + 1];
    RunStep(db, steps, i);
    MoveBumps(Run(db, steps[..i]), steps[i]);
    RunGrows(db, steps[..j], i + 1, id);
    if Apply(Run(db, steps[..j]), steps[j]).1 == Accepted {
      MoveBumps(Run(db, steps[..j]), steps[j]);
    }
  }
}
