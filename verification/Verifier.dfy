/**
 * The evidence-verifier child: how a provider response becomes verdicts, and the bounded retry
 * loop that asks for one.
 */
module Verifier {
  import opened Options
  import opened Strings
  import opened Numbers

  /** A decoded JSON value; numbers that JSON text cannot express (NaN, infinities) are NonFinite. */
  datatype Json =
    | Null | Bool(b: bool) | Int(i: int) | Float(r: real) | NonFinite | Str(s: string)
    | Arr(items: seq<Json>) | Obj(members: map<string, Json>)

  datatype Claim = Claim(claimId: string, evidenceIds: seq<string>)

  datatype Budget = Budget(inputTokens: nat, outputTokens: nat, retries: nat)

  datatype Request = Request(claims: seq<Claim>, evidence: seq<string>, budget: Budget)

  datatype VerdictStatus = Supported | Rejected | Escalate

  datatype Reason =
    | EvidenceSupports | EvidenceContradicts | InsufficientEvidence | InvalidCitation
    | BudgetExceeded | TimeoutReason | ProviderError | MalformedResponse

  datatype Verdict = Verdict(claimId: string, status: VerdictStatus, reason: Reason, confidence: real,
                             evidenceIds: seq<string>)

  datatype Usage = Usage(input: nat, output: nat)

  /**
   * Text that is not JSON, text on which the decoder fails in another way (an integer with more
   * digits or a nesting deeper than the decoder allows), or the value the text decodes to.
   */
  datatype Content = NotJson | Undecodable | Decoded(value: Json)

  datatype Response = Response(toolCalls: nat, content: Option<Content>, usage: Usage)

  // ----- Validity of requests and verdicts -----

  predicate SafeId(s: string) {
    1 <= |s| <= 128 && Alnum(s[0]) && forall i :: 0 <= i < |s| ==> Alnum(s[i]) || s[i] in "._:-"
  }

  predicate Distinct(ids: seq<string>) {
    forall i, j :: 0 <= i < j < |ids| ==> ids[i] != ids[j]
  }

  predicate SafeIds(ids: seq<string>) {
    |ids| <= 32 && Distinct(ids) && forall i :: 0 <= i < |ids| ==> SafeId(ids[i])
  }

  function ClaimIds(claims: seq<Claim>): (ids: seq<string>)
    ensures |ids| == |claims| && forall i :: 0 <= i < |ids| ==> ids[i] == claims[i].claimId
  {
    seq(|claims|, i requires 0 <= i < |claims| => claims[i].claimId)
  }

  predicate Subset(a: seq<string>, b: seq<string>) {
    forall i :: 0 <= i < |a| ==> a[i] in b
  }

  predicate ValidRequest(q: Request) {
    && 1 <= |q.claims| <= 32 && Distinct(ClaimIds(q.claims))
    && (forall i :: 0 <= i < |q.claims| ==>
          SafeId(q.claims[i].claimId) && SafeIds(q.claims[i].evidenceIds) && Subset(q.claims[i].evidenceIds, q.evidence))
    && 1 <= |q.evidence| && SafeIds(q.evidence)
    && 1 <= q.budget.inputTokens <= 32_768 && 1 <= q.budget.outputTokens <= 8_192 && q.budget.retries <= 1
  }

  // ----- One raw verdict -----

  const VERDICT_KEYS: set<string> := {"claim_id", "status", "reason_code", "confidence", "evidence_ids"}

  function StatusOf(j: Json): Option<VerdictStatus> {
    if j == Str("supported") then Some(Supported)
    else if j == Str("rejected") then Some(Rejected)
    else if j == Str("escalate") then Some(Escalate)
    else None
  }

  function ReasonOf(j: Json): Option<Reason> {
    if j == Str("evidence_supports") then Some(EvidenceSupports)
    else if j == Str("evidence_contradicts") then Some(EvidenceContradicts)
    else if j == Str("insufficient_evidence") then Some(InsufficientEvidence)
    else if j == Str("invalid_citation") then Some(InvalidCitation)
    else if j == Str("budget_exceeded") then Some(BudgetExceeded)
    else if j == Str("timeout") then Some(TimeoutReason)
    else if j == Str("provider_error") then Some(ProviderError)
    else if j == Str("malformed_response") then Some(MalformedResponse)
    else None
  }

  function ConfidenceOf(j: Json): Option<real> {
    match j
    case Int(i) => if 0 <= i <= 1 then Some(i as real) else None
    case Float(r) => if 0.0 <= r <= 1.0 then Some(r) else None
    case _ => None
  }

  function TextsOf(items: seq<Json>): Option<seq<string>> {
    if items == [] then Some([])
    else if !items[0].Str? then None
    else match TextsOf(items[1..]) case None => None case Some(rest) => Some([items[0].s] + rest)
  }

  /** The verdict a raw object stands for, if its shape and every field are valid. */
  function VerdictOf(raw: Json): Option<Verdict> {
    if !raw.Obj? || raw.members.Keys != VERDICT_KEYS then None
    else
      var m := raw.members;
      var ids := if m["evidence_ids"].Arr? then TextsOf(m["evidence_ids"].items) else None;
      var status, reason, confidence := StatusOf(m["status"]), ReasonOf(m["reason_code"]), ConfidenceOf(m["confidence"]);
      if ids.None? || !m["claim_id"].Str? || !SafeId(m["claim_id"].s) || status.None? || reason.None?
         || confidence.None? || !SafeIds(ids.value)
      then None
      else Some(Verdict(m["claim_id"].s, status.value, reason.value, confidence.value, ids.value))
  }

  // ----- What a raw verdict says, independently of how it is decoded -----

  function StatusWord(s: VerdictStatus): string {
    match s
    case Supported => "supported"
    case Rejected => "rejected"
    case Escalate => "escalate"
  }

  function ReasonWord(r: Reason): string {
    match r
    case EvidenceSupports => "evidence_supports"
    case EvidenceContradicts => "evidence_contradicts"
    case InsufficientEvidence => "insufficient_evidence"
    case InvalidCitation => "invalid_citation"
    case BudgetExceeded => "budget_exceeded"
    case TimeoutReason => "timeout"
    case ProviderError => "provider_error"
    case MalformedResponse => "malformed_response"
  }

  function Strs(ids: seq<string>): seq<Json> {
    seq(|ids|, i requires 0 <= i < |ids| => Str(ids[i]))
  }

  /** The JSON object that states a verdict. */
  function Encode(v: Verdict): Json {
    Obj(map["claim_id" := Str(v.claimId), "status" := Str(StatusWord(v.status)), "reason_code" := Str(ReasonWord(v.reason)),
            "confidence" := Float(v.confidence), "evidence_ids" := Arr(Strs(v.evidenceIds))])
  }

  ghost predicate ValidVerdict(v: Verdict) {
    SafeId(v.claimId) && SafeIds(v.evidenceIds) && 0.0 <= v.confidence <= 1.0
  }

  /** The object has exactly the five members, and each says what the verdict says. */
  ghost predicate Says(raw: Json, v: Verdict) {
    && raw.Obj? && raw.members.Keys == VERDICT_KEYS && ValidVerdict(v)
    && raw.members["claim_id"] == Str(v.claimId)
    && raw.members["status"] == Str(StatusWord(v.status))
    && raw.members["reason_code"] == Str(ReasonWord(v.reason))
    && (raw.members["confidence"] == Float(v.confidence)
        || (raw.members["confidence"].Int? && raw.members["confidence"].i as real == v.confidence))
    && raw.members["evidence_ids"] == Arr(Strs(v.evidenceIds))
  }

  lemma StatusWords(j: Json, s: VerdictStatus)
    ensures StatusOf(j) == Some(s) <==> j == Str(StatusWord(s))
  {
    assert "rejected"[0] != "escalate"[0];
    assert |"supported"| != |"rejected"|;
  }

  lemma ReasonWords(j: Json, r: Reason)
    ensures ReasonOf(j) == Some(r) <==> j == Str(ReasonWord(r))
  {
    var words := ["evidence_supports", "evidence_contradicts", "insufficient_evidence", "invalid_citation",
                  "budget_exceeded", "timeout", "provider_error", "malformed_response"];
    assert |words[0]| == 17 && |words[1]| == 20 && |words[2]| == 21 && |words[3]| == 16;
    assert |words[4]| == 15 && |words[5]| == 7 && |words[6]| == 14 && |words[7]| == 18;
  }

  lemma {:induction false} TextsRead(items: seq<Json>, ids: seq<string>)
    ensures TextsOf(items) == Some(ids) <==> items == Strs(ids)
  {
    if items == [] {
    } else {
      if ids == [] {
        if TextsOf(items).Some? { assert |TextsOf(items).value| > 0; }
      } else {
        TextsRead(items[1..], ids[1..]);
        assert Strs(ids)[1..] == Strs(ids[1..]);
        assert items == [items[0]] + items[1..];
        assert ids == [ids[0]] + ids[1..];
        assert Strs(ids) == [Str(ids[0])] + Strs(ids[1..]);
      }
    }
  }

  lemma ConfidenceRead(j: Json, c: real)
    ensures ConfidenceOf(j) == Some(c) <==>
      0.0 <= c <= 1.0 && (j == Float(c) || (j.Int? && j.i as real == c))
  {
  }

  /** Decoding yields exactly what the object says. */
  lemma VerdictMeans(raw: Json, v: Verdict)
    ensures VerdictOf(raw) == Some(v) <==> Says(raw, v)
  {
    if raw.Obj? && raw.members.Keys == VERDICT_KEYS {
      var m := raw.members;
      StatusWords(m["status"], v.status);
      ReasonWords(m["reason_code"], v.reason);
      ConfidenceRead(m["confidence"], v.confidence);
      if m["evidence_ids"].Arr? { TextsRead(m["evidence_ids"].items, v.evidenceIds); }
    }
  }

  /** Every valid verdict survives encoding and decoding. */
  lemma VerdictRoundTrip(v: Verdict)
    requires ValidVerdict(v)
    ensures VerdictOf(Encode(v)) == Some(v)
  {
    EncodedKeys(v);
    VerdictMeans(Encode(v), v);
  }

  lemma EncodedKeys(v: Verdict)
    ensures Encode(v).members.Keys == VERDICT_KEYS
  {
  }

  /** Everything checked before the confidence is in order, but converting that integer overflows. */
  predicate Overflows(raw: Json) {
    && raw.Obj? && raw.members.Keys == VERDICT_KEYS
    && var m := raw.members;
    && m["evidence_ids"].Arr? && TextsOf(m["evidence_ids"].items).Some?
    && m["claim_id"].Str? && SafeId(m["claim_id"].s)
    && StatusOf(m["status"]).Some? && ReasonOf(m["reason_code"]).Some?
    && m["confidence"].Int? && !FitsFloat(m["confidence"].i)
  }

  /** The first raw verdict that is not valid overflows. */
  ghost predicate BreaksAt(items: seq<Json>, k: nat) {
    k < |items| && Overflows(items[k]) && forall j :: 0 <= j < k ==> VerdictOf(items[j]).Some?
  }

  // ----- Acceptable answers -----

  function VerdictIds(vs: seq<Verdict>): (ids: seq<string>)
    ensures |ids| == |vs| && forall i :: 0 <= i < |ids| ==> ids[i] == vs[i].claimId
  {
    seq(|vs|, i requires 0 <= i < |vs| => vs[i].claimId)
  }

  predicate Consistent(v: Verdict) {
    || (v.status == Supported && v.reason == EvidenceSupports && v.evidenceIds != [])
    || (v.status == Rejected && v.reason == EvidenceContradicts)
    || (v.status == Escalate && v.reason in {InsufficientEvidence, InvalidCitation})
  }

  /** Every claim is judged exactly once. */
  ghost predicate JudgesEachOnce(q: Request, vs: seq<Verdict>) {
    multiset(VerdictIds(vs)) == multiset(ClaimIds(q.claims))
  }

  /** Every verdict cites only what was delegated to its own claim, and gives a matching reason. */
  ghost predicate CitesOwnEvidence(q: Request, vs: seq<Verdict>) {
    forall i, k :: 0 <= i < |vs| && 0 <= k < |q.claims| && vs[i].claimId == q.claims[k].claimId ==>
      Consistent(vs[i]) && Subset(vs[i].evidenceIds, q.claims[k].evidenceIds)
  }

  /** The raw verdicts of a response that has the right outer shape. */
  function RawVerdicts(r: Response): Option<seq<Json>> {
    if r.toolCalls != 0 || r.content.None? || !r.content.value.Decoded? then None
    else
      var value := r.content.value.value;
      if !value.Obj? || value.members.Keys != {"verdicts"} || !value.members["verdicts"].Arr? then None
      else Some(value.members["verdicts"].items)
  }

  /** The raw verdicts say, one by one, what the verdicts say. */
  ghost predicate Valid(items: seq<Json>, vs: seq<Verdict>) {
    |items| == |vs| && forall i :: 0 <= i < |vs| ==> Says(items[i], vs[i])
  }

  ghost predicate DecodesTo(items: seq<Json>, vs: seq<Verdict>) {
    |items| == |vs| && forall i :: 0 <= i < |vs| ==> VerdictOf(items[i]) == Some(vs[i])
  }

  lemma DecodesToValid(items: seq<Json>, vs: seq<Verdict>)
    ensures DecodesTo(items, vs) <==> Valid(items, vs)
  {
    forall i | 0 <= i < |items| && i < |vs| ensures Says(items[i], vs[i]) <==> VerdictOf(items[i]) == Some(vs[i]) {
      VerdictMeans(items[i], vs[i]);
    }
  }

  /** What a response must be to be used. */
  ghost predicate Usable(q: Request, r: Response, vs: seq<Verdict>) {
    RawVerdicts(r).Some? && Valid(RawVerdicts(r).value, vs) && JudgesEachOnce(q, vs) && CitesOwnEvidence(q, vs)
  }

  ghost predicate SomeBreaks(items: seq<Json>) {
    exists k: nat :: BreaksAt(items, k)
  }

  /** The response makes parsing fail with an error that is not taken for a malformed response. */
  ghost predicate Breaks(r: Response) {
    if RawVerdicts(r).Some? then SomeBreaks(RawVerdicts(r).value)
    else r.toolCalls == 0 && r.content == Some(Undecodable)
  }

  lemma OverflowIsInvalid(raw: Json)
    requires Overflows(raw)
    ensures VerdictOf(raw).None?
  {
  }

  // ----- Counting: as many verdicts as claims and the same ids means each id once -----

  function Elements(ids: seq<string>): set<string> {
    set i | 0 <= i < |ids| :: ids[i]
  }

  lemma {:induction false} ElementsCount(ids: seq<string>)
    ensures |Elements(ids)| <= |ids|
    ensures |Elements(ids)| == |ids| <==> Distinct(ids)
  {
    if ids == [] {
      assert Elements(ids) == {};
    } else {
      var rest := ids[1..];
      ElementsCount(rest);
      assert ids == [ids[0]] + rest;
      assert Elements(ids) == {ids[0]} + Elements(rest);
      if ids[0] in Elements(rest) {
        var k :| 0 <= k < |rest| && rest[k] == ids[0];
        assert ids[k + 1] == ids[0];
        assert Elements(ids) == Elements(rest);
      } else {
        DistinctCons(ids);
      }
    }
  }

  lemma DistinctCons(ids: seq<string>)
    requires ids != [] && ids[0] !in Elements(ids[1..])
    ensures Distinct(ids) <==> Distinct(ids[1..])
  {
    var rest := ids[1..];
    if Distinct(rest) {
      forall i, j | 0 <= i < j < |ids| ensures ids[i] != ids[j] {
        assert ids[j] == rest[j - 1] && rest[j - 1] in Elements(rest);
        if i > 0 { assert ids[i] == rest[i - 1]; }
      }
    }
    if Distinct(ids) {
      forall i, j | 0 <= i < j < |rest| ensures rest[i] != rest[j] {
        assert rest[i] == ids[i + 1] && rest[j] == ids[j + 1];
      }
    }
  }

  lemma {:induction false} DistinctMultiset(ids: seq<string>, x: string)
    requires Distinct(ids)
    ensures multiset(ids)[x] == if x in Elements(ids) then 1 else 0
  {
    if ids != [] {
      var rest := ids[1..];
      assert ids == [ids[0]] + rest;
      assert forall i :: 0 <= i < |rest| ==> rest[i] == ids[i + 1];
      DistinctMultiset(rest, x);
      if x in Elements(rest) {
        var k :| 0 <= k < |rest| && rest[k] == x;
        assert ids[k + 1] == x;
      }
    }
  }

  lemma SameElementsSameMultiset(a: seq<string>, b: seq<string>)
    requires Distinct(b) && |a| == |b| && Elements(a) == Elements(b)
    ensures multiset(a) == multiset(b)
  {
    ElementsCount(a);
    ElementsCount(b);
    forall x ensures multiset(a)[x] == multiset(b)[x] {
      DistinctMultiset(a, x);
      DistinctMultiset(b, x);
    }
  }

  lemma MultisetSameElements(a: seq<string>, b: seq<string>)
    requires multiset(a) == multiset(b)
    ensures |a| == |b| && Elements(a) == Elements(b)
  {
    assert |multiset(a)| == |a| && |multiset(b)| == |b|;
    forall x ensures x in Elements(a) <==> x in Elements(b) {
      assert x in Elements(a) <==> x in multiset(a);
      assert x in Elements(b) <==> x in multiset(b);
    }
  }

  // ----- Parsing a response -----

  datatype Parsed = Accepted(verdicts: seq<Verdict>) | Malformed | Crashed

  /** The outcome of decoding raw verdicts one after the other. */
  ghost function Read(items: seq<Json>): Parsed {
    if items == [] then Accepted([])
    else if Overflows(items[0]) then Crashed
    else if VerdictOf(items[0]).None? then Malformed
    else
      match Read(items[1..])
      case Accepted(vs) => Accepted([VerdictOf(items[0]).value] + vs)
      case other => other
  }

  /** The outcome of parsing a response. */
  ghost function Parse(q: Request, r: Response): Parsed {
    if RawVerdicts(r).None? then (if r.toolCalls == 0 && r.content == Some(Undecodable) then Crashed else Malformed)
    else
      match Read(RawVerdicts(r).value)
      case Accepted(vs) => if JudgesEachOnce(q, vs) && CitesOwnEvidence(q, vs) then Accepted(vs) else Malformed
      case other => other
  }

  lemma {:induction false} ReadMeans(items: seq<Json>)
    ensures Read(items).Accepted? <==> exists vs :: DecodesTo(items, vs)
    ensures Read(items).Accepted? ==> DecodesTo(items, Read(items).verdicts)
    ensures Read(items).Crashed? <==> SomeBreaks(items)
  {
    if items == [] {
      assert DecodesTo(items, []);
    } else {
      var rest := items[1..];
      ReadMeans(rest);
      if Overflows(items[0]) {
        OverflowIsInvalid(items[0]);
        assert BreaksAt(items, 0);
      } else if VerdictOf(items[0]).Some? {
        if Read(rest).Accepted? {
          DecodingCons(items, VerdictOf(items[0]).value, Read(rest).verdicts);
        }
        BreaksTail(items);
        forall vs | DecodesTo(items, vs) ensures DecodesTo(rest, vs[1..]) {
          assert forall i :: 0 <= i < |rest| ==> rest[i] == items[i + 1];
        }
      }
    }
  }

  lemma {:induction false} ReadFails(items: seq<Json>)
    ensures !Read(items).Accepted? ==> exists i :: 0 <= i < |items| && VerdictOf(items[i]).None?
  {
    if items != [] {
      ReadFails(items[1..]);
      if Overflows(items[0]) {
        OverflowIsInvalid(items[0]);
      } else if VerdictOf(items[0]).Some? && !Read(items[1..]).Accepted? {
        var i :| 0 <= i < |items[1..]| && VerdictOf(items[1..][i]).None?;
        assert items[i + 1] == items[1..][i];
      }
    }
  }

  lemma ReadStep(items: seq<Json>, i: nat)
    requires i < |items|
    ensures Read(items[i..]) ==
            if Overflows(items[i]) then Crashed
            else if VerdictOf(items[i]).None? then Malformed
            else After([VerdictOf(items[i]).value], Read(items[i + 1..]))
  {
    assert items[i..][1..] == items[i + 1..];
  }

  lemma DecodingCons(items: seq<Json>, v: Verdict, vs: seq<Verdict>)
    requires items != [] && VerdictOf(items[0]) == Some(v) && DecodesTo(items[1..], vs)
    ensures DecodesTo(items, [v] + vs)
  {
    var ws := [v] + vs;
    forall i | 0 <= i < |ws| ensures VerdictOf(items[i]) == Some(ws[i]) {
      if i > 0 { assert items[1..][i - 1] == items[i] && ws[i] == vs[i - 1]; }
    }
  }

  lemma BreaksTail(items: seq<Json>)
    requires items != [] && !Overflows(items[0]) && VerdictOf(items[0]).Some?
    ensures SomeBreaks(items) <==> SomeBreaks(items[1..])
  {
    var rest := items[1..];
    if SomeBreaks(items) {
      var k: nat :| BreaksAt(items, k);
      assert rest[k - 1] == items[k];
      assert forall j :: 0 <= j < k - 1 ==> rest[j] == items[j + 1];
      assert BreaksAt(rest, k - 1);
    }
    if SomeBreaks(rest) {
      var k: nat :| BreaksAt(rest, k);
      assert forall j :: 0 < j < k + 1 ==> items[j] == rest[j - 1];
      assert BreaksAt(items, k + 1);
    }
  }

  /** Parsing accepts exactly the usable responses and crashes exactly on those that break it. */
  lemma ParseMeans(q: Request, r: Response)
    ensures Parse(q, r).Accepted? <==> exists vs :: Usable(q, r, vs)
    ensures Parse(q, r).Accepted? ==> Usable(q, r, Parse(q, r).verdicts)
    ensures Parse(q, r).Crashed? <==> Breaks(r)
  {
    if RawVerdicts(r).Some? {
      var items := RawVerdicts(r).value;
      ReadMeans(items);
      forall vs | Valid(items, vs) ensures Read(items) == Accepted(vs) {
        DecodesToValid(items, vs);
        DecodingUnique(items, vs, Read(items).verdicts);
      }
      if Parse(q, r).Accepted? {
        DecodesToValid(items, Read(items).verdicts);
        assert Usable(q, r, Parse(q, r).verdicts);
      }
    }
  }

  lemma DecodingUnique(items: seq<Json>, vs: seq<Verdict>, ws: seq<Verdict>)
    requires DecodesTo(items, vs) && DecodesTo(items, ws)
    ensures vs == ws
  {
    forall i | 0 <= i < |vs| ensures vs[i] == ws[i] {
      assert VerdictOf(items[i]) == Some(vs[i]) && VerdictOf(items[i]) == Some(ws[i]);
    }
  }

  method Decode(items: seq<Json>) returns (r: Parsed)
    ensures r == Read(items)
    ensures r.Accepted? ==> Valid(items, r.verdicts)
    ensures !r.Accepted? ==> exists i :: 0 <= i < |items| && VerdictOf(items[i]).None?
    ensures r.Crashed? <==> SomeBreaks(items)
  {
    r := DecodeEach(items);
    ReadMeans(items);
    ReadFails(items);
    if r.Accepted? { DecodesToValid(items, r.verdicts); }
  }

  method DecodeEach(items: seq<Json>) returns (r: Parsed)
    ensures r == Read(items)
  {
    var verdicts := [];
    for i := 0 to |items|
      invariant Read(items) == After(verdicts, Read(items[i..]))
    {
      ReadStep(items, i);
      var v := VerdictOf(items[i]);
      if Overflows(items[i]) {
        return Crashed;
      }
      if v.None? {
        return Malformed;
      }
      AfterStep(verdicts, v.value, Read(items[i + 1..]));
      verdicts := verdicts + [v.value];
    }
    return Accepted(verdicts);
  }

  /** The outcome when verdicts were already decoded before p. */
  ghost function After(verdicts: seq<Verdict>, p: Parsed): Parsed {
    match p
    case Accepted(vs) => Accepted(verdicts + vs)
    case other => other
  }

  lemma AfterStep(verdicts: seq<Verdict>, v: Verdict, p: Parsed)
    ensures After(verdicts, After([v], p)) == After(verdicts + [v], p)
  {
    if p.Accepted? {
      assert verdicts + ([v] + p.verdicts) == verdicts + [v] + p.verdicts;
    }
  }

  method Cites(q: Request, vs: seq<Verdict>) returns (ok: bool)
    requires Elements(VerdictIds(vs)) == Elements(ClaimIds(q.claims)) && Distinct(ClaimIds(q.claims))
    ensures ok <==> CitesOwnEvidence(q, vs)
  {
    for i := 0 to |vs|
      invariant CitesOwnEvidence(q, vs[..i])
    {
      assert VerdictIds(vs)[i] in Elements(VerdictIds(vs));
      var k :| 0 <= k < |q.claims| && ClaimIds(q.claims)[k] == vs[i].claimId;
      if !Subset(vs[i].evidenceIds, q.claims[k].evidenceIds) || !Consistent(vs[i]) {
        return false;
      }
      assert forall m :: 0 <= m < |q.claims| && q.claims[m].claimId == vs[i].claimId ==> m == k by {
        forall m | 0 <= m < |q.claims| && q.claims[m].claimId == vs[i].claimId ensures m == k {
          assert ClaimIds(q.claims)[m] == ClaimIds(q.claims)[k];
        }
      }
      assert vs[..i + 1] == vs[..i] + [vs[i]];
    }
    assert vs[..|vs|] == vs;
    return true;
  }

  lemma ForeignCitation(q: Request, vs: seq<Verdict>, i: nat)
    requires ValidRequest(q) && Elements(VerdictIds(vs)) == Elements(ClaimIds(q.claims))
    requires i < |vs| && !Subset(vs[i].evidenceIds, q.evidence)
    ensures !CitesOwnEvidence(q, vs)
  {
    assert VerdictIds(vs)[i] in Elements(VerdictIds(vs));
    var k :| 0 <= k < |q.claims| && ClaimIds(q.claims)[k] == vs[i].claimId;
    assert q.claims[k].claimId == vs[i].claimId;
  }

  /** Decides whether decoded verdicts judge each claim once and cite only its evidence. */
  method Suits(q: Request, vs: seq<Verdict>) returns (ok: bool)
    requires ValidRequest(q)
    ensures ok <==> JudgesEachOnce(q, vs) && CitesOwnEvidence(q, vs)
  {
    var expected := Elements(ClaimIds(q.claims));
    ElementsCount(ClaimIds(q.claims));
    if |vs| != |expected| || Elements(VerdictIds(vs)) != expected {
      if JudgesEachOnce(q, vs) {
        MultisetSameElements(VerdictIds(vs), ClaimIds(q.claims));
      }
      return false;
    }
    SameElementsSameMultiset(VerdictIds(vs), ClaimIds(q.claims));
    if !(forall i :: 0 <= i < |vs| ==> Subset(vs[i].evidenceIds, q.evidence)) {
      var i :| 0 <= i < |vs| && !Subset(vs[i].evidenceIds, q.evidence);
      ForeignCitation(q, vs, i);
      return false;
    }
    ok := Cites(q, vs);
  }

  /** Accepts exactly the usable responses, and tells the malformed from those that break it. */
  method ParseResponse(q: Request, r: Response) returns (result: Parsed)
    requires ValidRequest(q)
    ensures result == Parse(q, r)
    ensures result.Accepted? ==> Usable(q, r, result.verdicts)
    ensures result.Accepted? <==> exists vs :: Usable(q, r, vs)
    ensures result.Crashed? <==> Breaks(r)
  {
    ParseMeans(q, r);
    if r.toolCalls != 0 || r.content.None? || r.content.value.NotJson? {
      return Malformed;
    }
    if r.content.value.Undecodable? {
      return Crashed;
    }
    var value := r.content.value.value;
    if !value.Obj? || value.members.Keys != {"verdicts"} {
      return Malformed;
    }
    var raw := value.members["verdicts"];
    if !raw.Arr? {
      return Malformed;
    }
    result := Decode(raw.items);
    if result.Accepted? {
      var ok := Suits(q, result.verdicts);
      if !ok {
        return Malformed;
      }
    }
  }

  // ----- The retry loop -----

  /** What awaiting the provider can end in, the deadline or a cancellation included. */
  datatype ProviderEvent =
    | Answer(response: Response) | Transient | TimedOut | Broken | DeadlineStruck | CancelStruck

  /** Whether the deadline or a cancellation struck before the prompt was measured and the provider asked. */
  datatype Start = OnTime | Late | CancelledFirst

  /** What is noticed once the calls are over: nothing, that the deadline has passed, or a cancellation. */
  datatype Ending = InTime | TooLate | CancelledLast

  datatype ChildStatus = Completed | Failed | Timeout | Cancelled

  datatype Result = Result(status: ChildStatus, usage: Usage, verdicts: seq<Verdict>, attempts: nat)

  const RETRY_NOTE_BYTES: nat := 153

  /** Tokens estimated for messages of the given byte lengths. */
  function Estimate(lengths: seq<nat>): nat {
    if lengths == [] then 0 else (lengths[0] + 3) / 4 + 8 + Estimate(lengths[1..])
  }

  /** Each message adds eight tokens and a quarter of its bytes, rounded up. */
  lemma {:induction false} EstimateAdds(lengths: seq<nat>, n: nat)
    ensures Estimate([]) == 0
    ensures var c := Estimate(lengths + [n]) - Estimate(lengths) - 8; 4 * c - 3 <= n <= 4 * c
  {
    if lengths == [] {
      assert Estimate([n]) == (n + 3) / 4 + 8 + Estimate([n][1..]);
      assert lengths + [n] == [n];
    } else {
      assert (lengths + [n])[1..] == lengths[1..] + [n];
      EstimateAdds(lengths[1..], n);
    }
  }

  function Plus(a: Usage, b: Usage): Usage { Usage(a.input + b.input, a.output + b.output) }

  predicate WithinBudget(u: Usage, b: Budget) {
    u.input <= b.inputTokens && u.output <= b.outputTokens && u.input + u.output <= b.inputTokens + b.outputTokens
  }

  function FailClosed(q: Request, reason: Reason): (vs: seq<Verdict>)
    ensures JudgesEachOnce(q, vs)
    ensures forall i :: 0 <= i < |vs| ==>
      vs[i].status == Escalate && vs[i].reason == reason && vs[i].confidence == 0.0 && vs[i].evidenceIds == []
  {
    var vs := seq(|q.claims|, i requires 0 <= i < |q.claims| => Verdict(q.claims[i].claimId, Escalate, reason, 0.0, []));
    assert VerdictIds(vs) == ClaimIds(q.claims);
    vs
  }

  /** Provider-reported usage over the first n calls. */
  ghost function UsageOver(provider: nat -> ProviderEvent, n: nat): Usage {
    if n == 0 then Usage(0, 0)
    else if provider(n - 1).Answer? then Plus(UsageOver(provider, n - 1), provider(n - 1).response.usage)
    else UsageOver(provider, n - 1)
  }

  /** What parsing makes of each response to the request. */
  ghost function Parsing(q: Request): Response -> Parsed {
    r => Parse(q, r)
  }

  /** Unfolded only where a response is actually parsed. */
  ghost predicate IsParsing(q: Request, parse: Response -> Parsed) {
    forall r {:trigger Parse(q, r)} :: parse(r) == Parse(q, r)
  }

  /** An event after which asking again is allowed, u being the usage including it. */
  ghost predicate Retryable(b: Budget, parse: Response -> Parsed, e: ProviderEvent, u: Usage) {
    match e
    case Answer(r) => WithinBudget(u, b) && parse(r).Malformed?
    case Transient => true
    case TimedOut => true
    case _ => false
  }

  /** An event that brings usable verdicts within budget. */
  ghost predicate Delivers(b: Budget, parse: Response -> Parsed, e: ProviderEvent, u: Usage) {
    e.Answer? && WithinBudget(u, b) && parse(e.response).Accepted?
  }

  ghost predicate AllEscalated(vs: seq<Verdict>, why: Reason) {
    forall i :: 0 <= i < |vs| ==>
      vs[i].status == Escalate && vs[i].reason == why && vs[i].confidence == 0.0 && vs[i].evidenceIds == []
  }

  /** Why a run that ends with this event is escalated. */
  ghost function FailureOf(b: Budget, parse: Response -> Parsed, e: ProviderEvent, u: Usage): Reason {
    match e
    case Answer(r) =>
      if !WithinBudget(u, b) then BudgetExceeded else if parse(r).Crashed? then ProviderError else MalformedResponse
    case TimedOut => TimeoutReason
    case DeadlineStruck => TimeoutReason
    case _ => ProviderError
  }

  /** The byte lengths of the messages sent with call number n. */
  ghost function Sent(provider: nat -> ProviderEvent, lengths: seq<nat>, n: nat): seq<nat> {
    if n == 0 then lengths
    else Sent(provider, lengths, n - 1) + if provider(n - 1).Answer? then [RETRY_NOTE_BYTES] else []
  }

  /** Everything a run of the child depends on, the behaviour of its surroundings included. */
  datatype Setting = Setting(budget: Budget, start: Start, provider: nat -> ProviderEvent, ending: Ending,
                             lengths: seq<nat>)

  /** Another call is due after n of them. */
  ghost predicate Due(s: Setting, parse: Response -> Parsed, n: nat) {
    if n == 0 then s.start.OnTime?
    else n <= s.budget.retries && Retryable(s.budget, parse, s.provider(n - 1), UsageOver(s.provider, n))
  }

  predicate Struck(e: ProviderEvent) { e.DeadlineStruck? || e.CancelStruck? }

  ghost predicate EndsInTimeout(s: Setting, parse: Response -> Parsed, n: nat) {
    if n == 0 then s.start.Late?
    else if Struck(s.provider(n - 1)) then s.provider(n - 1).DeadlineStruck?
    else s.ending.TooLate? || (s.ending.InTime? && !Due(s, parse, n) && s.provider(n - 1).TimedOut?)
  }

  ghost predicate EndsCancelled(s: Setting, n: nat) {
    if n == 0 then s.start.CancelledFirst?
    else s.provider(n - 1).CancelStruck? || (s.ending.CancelledLast? && !Struck(s.provider(n - 1)))
  }

  ghost function WhyEscalated(s: Setting, parse: Response -> Parsed, n: nat): Reason {
    if EndsInTimeout(s, parse, n) then TimeoutReason
    else if EndsCancelled(s, n) then ProviderError
    else if n == 0 || Due(s, parse, n) then BudgetExceeded
    else FailureOf(s.budget, parse, s.provider(n - 1), UsageOver(s.provider, n))
  }

  /** What every recorded result must be: nothing unproven is ever passed off as judged. */
  ghost predicate Sound(q: Request, r: Result) {
    && JudgesEachOnce(q, r.verdicts)
    && (r.status == Completed ==> CitesOwnEvidence(q, r.verdicts) && WithinBudget(r.usage, q.budget))
    && (r.status != Completed ==> forall i :: 0 <= i < |r.verdicts| ==> r.verdicts[i].status == Escalate)
  }

  /** The estimate for the messages still fits what the budget leaves. */
  predicate Affordable(b: Budget, messages: seq<nat>, u: Usage) {
    && Estimate(messages) <= b.inputTokens - u.input && u.output < b.outputTokens
    && u.input + u.output + Estimate(messages) <= b.inputTokens + b.outputTokens
  }

  datatype Turn = Stop(status: ChildStatus, verdicts: seq<Verdict>) | Again(note: bool)

  /** What one provider event leads to, given the usage including it. */
  method React(q: Request, ghost parse: Response -> Parsed, event: ProviderEvent, usage: Usage, last: bool) returns (t: Turn)
    requires ValidRequest(q) && IsParsing(q, parse)
    ensures t.Again? <==> !last && Retryable(q.budget, parse, event, usage)
    ensures t.Again? ==> (t.note <==> event.Answer?)
    ensures t.Stop? ==> JudgesEachOnce(q, t.verdicts)
    ensures t.Stop? ==> (t.status == Completed <==> Delivers(q.budget, parse, event, usage))
    ensures t.Stop? && t.status == Completed ==> parse(event.response) == Accepted(t.verdicts)
    ensures t.Stop? && t.status != Completed ==> AllEscalated(t.verdicts, FailureOf(q.budget, parse, event, usage))
    ensures event.CancelStruck? <==> t.Stop? && t.status == Cancelled
    ensures t.Stop? ==> (t.status == Timeout <==> event.TimedOut? || event.DeadlineStruck?)
  {
    match event {
      case Answer(response) =>
        if !WithinBudget(usage, q.budget) {
          return Stop(Failed, FailClosed(q, BudgetExceeded));
        }
        var parsed := ParseResponse(q, response);
        if parsed.Accepted? {
          return Stop(Completed, parsed.verdicts);
        }
        if parsed.Crashed? {
          return Stop(Failed, FailClosed(q, ProviderError));
        }
        if last {
          return Stop(Failed, FailClosed(q, MalformedResponse));
        }
        return Again(true);
      case Transient =>
        if last {
          return Stop(Failed, FailClosed(q, ProviderError));
        }
        return Again(false);
      case TimedOut =>
        if last {
          return Stop(Timeout, FailClosed(q, TimeoutReason));
        }
        return Again(false);
      case Broken => return Stop(Failed, FailClosed(q, ProviderError));
      case DeadlineStruck => return Stop(Timeout, FailClosed(q, TimeoutReason));
      case CancelStruck => return Stop(Cancelled, FailClosed(q, ProviderError));
    }
  }

  ghost predicate OnlyRetries(s: Setting, parse: Response -> Parsed, n: int) {
    forall k: nat :: k < n ==> Retryable(s.budget, parse, s.provider(k), UsageOver(s.provider, k + 1))
  }

  /** Each of the first n calls was made only when its estimate fitted what the budget left. */
  ghost predicate EachAffordable(s: Setting, n: nat) {
    forall k: nat :: k < n ==> Affordable(s.budget, Sent(s.provider, s.lengths, k), UsageOver(s.provider, k))
  }

  /** All that a run promises about its result, given what parsing makes of each response. */
  ghost predicate Outcome(s: Setting, parse: Response -> Parsed, r: Result) {
    && r.attempts <= s.budget.retries + 1
    && (r.attempts == 0 <==> !s.start.OnTime? || Estimate(s.lengths) > s.budget.inputTokens)
    && r.usage == UsageOver(s.provider, r.attempts)
    && OnlyRetries(s, parse, r.attempts - 1)
    && EachAffordable(s, r.attempts)
    && (Due(s, parse, r.attempts) ==> !Affordable(s.budget, Sent(s.provider, s.lengths, r.attempts), r.usage))
    && (r.status == Completed <==>
          s.ending.InTime? && r.attempts > 0 && Delivers(s.budget, parse, s.provider(r.attempts - 1), r.usage))
    && (r.status == Completed ==> parse(s.provider(r.attempts - 1).response) == Accepted(r.verdicts))
    && (r.status != Completed ==> AllEscalated(r.verdicts, WhyEscalated(s, parse, r.attempts)))
    && (r.status == Timeout <==> EndsInTimeout(s, parse, r.attempts))
    && (r.status == Cancelled <==> EndsCancelled(s, r.attempts))
  }

  /** The loop that asks the provider, up to the outcome it has in time. */
  method AskProvider(q: Request, s: Setting, ghost parse: Response -> Parsed) returns (r: Result)
    requires ValidRequest(q) && IsParsing(q, parse) && s.budget == q.budget
    requires s.start.OnTime? && Estimate(s.lengths) <= q.budget.inputTokens
    ensures r.attempts > 0 && JudgesEachOnce(q, r.verdicts)
    ensures Outcome(s.(ending := InTime), parse, r)
  {
    ghost var timely := s.(ending := InTime);
    var usage, attempts := Usage(0, 0), 0;
    var messages: seq<nat> := s.lengths;
    StartsUnderway(timely, parse);
    while true
      invariant usage == UsageOver(s.provider, attempts) && messages == Sent(s.provider, s.lengths, attempts)
      invariant Underway(timely, parse, attempts)
      decreases q.budget.retries - attempts
    {
      var estimate := Estimate(messages);
      if q.budget.inputTokens - usage.input < estimate || q.budget.outputTokens - usage.output <= 0
         || usage.input + usage.output + estimate > q.budget.inputTokens + q.budget.outputTokens {
        assert !Affordable(q.budget, messages, usage);
        r := Result(Failed, usage, FailClosed(q, BudgetExceeded), attempts);
        StarvedOutcome(timely, parse, r);
        return;
      }
      assert Affordable(q.budget, messages, usage);
      var event := s.provider(attempts);
      attempts := attempts + 1;
      if event.Answer? {
        usage := Plus(usage, event.response.usage);
      }
      var turn := React(q, parse, event, usage, attempts > q.budget.retries);
      if turn.Stop? {
        r := Result(turn.status, usage, turn.verdicts, attempts);
        StoppedOutcome(timely, parse, r);
        return;
      }
      if turn.note {
        messages := messages + [RETRY_NOTE_BYTES];
      }
      OnwardKeeps(timely, parse, attempts);
    }
  }

  lemma OnwardKeeps(s: Setting, parse: Response -> Parsed, n: nat)
    requires n > 0 && Underway(s, parse, n - 1) && n <= s.budget.retries
    requires Affordable(s.budget, Sent(s.provider, s.lengths, n - 1), UsageOver(s.provider, n - 1))
    requires Retryable(s.budget, parse, s.provider(n - 1), UsageOver(s.provider, n))
    ensures Underway(s, parse, n)
    ensures Sent(s.provider, s.lengths, n) ==
            Sent(s.provider, s.lengths, n - 1) + if s.provider(n - 1).Answer? then [RETRY_NOTE_BYTES] else []
  {
  }

  lemma StartsUnderway(s: Setting, parse: Response -> Parsed)
    requires s.start.OnTime? && Estimate(s.lengths) <= s.budget.inputTokens && s.budget.outputTokens > 0
    ensures Underway(s, parse, 0)
  {
  }

  /** Some calls were made, all of them rightly, and another is due. */
  ghost predicate Underway(s: Setting, parse: Response -> Parsed, n: nat) {
    && s.start.OnTime? && Estimate(s.lengths) <= s.budget.inputTokens && s.budget.outputTokens > 0
    && n <= s.budget.retries && Due(s, parse, n) && OnlyRetries(s, parse, n) && EachAffordable(s, n)
  }

  lemma StarvedOutcome(s: Setting, parse: Response -> Parsed, r: Result)
    requires Underway(s, parse, r.attempts) && s.ending.InTime? && r.usage == UsageOver(s.provider, r.attempts)
    requires !Affordable(s.budget, Sent(s.provider, s.lengths, r.attempts), r.usage)
    requires r.status == Failed && AllEscalated(r.verdicts, BudgetExceeded)
    ensures r.attempts > 0 && Outcome(s, parse, r)
  {
    assert r.attempts > 0;
    assert Retryable(s.budget, parse, s.provider(r.attempts - 1), UsageOver(s.provider, r.attempts - 1 + 1));
  }

  lemma StoppedOutcome(s: Setting, parse: Response -> Parsed, r: Result)
    requires r.attempts > 0 && Underway(s, parse, r.attempts - 1) && s.ending.InTime?
    requires r.usage == UsageOver(s.provider, r.attempts)
    requires Affordable(s.budget, Sent(s.provider, s.lengths, r.attempts - 1), UsageOver(s.provider, r.attempts - 1))
    requires var e := s.provider(r.attempts - 1);
      && (r.attempts <= s.budget.retries ==> !Retryable(s.budget, parse, e, r.usage))
      && (r.status == Completed <==> Delivers(s.budget, parse, e, r.usage))
      && (r.status == Completed ==> parse(e.response) == Accepted(r.verdicts))
      && (r.status != Completed ==> AllEscalated(r.verdicts, FailureOf(s.budget, parse, e, r.usage)))
      && (r.status == Cancelled <==> e.CancelStruck?) && (r.status == Timeout <==> e.TimedOut? || e.DeadlineStruck?)
    ensures Outcome(s, parse, r)
  {
  }

  /** The result once the calls are over; a deadline or cancellation noticed only now replaces it. */
  function Conclude(q: Request, event: ProviderEvent, ending: Ending, r: Result): Result {
    if Struck(event) || ending.InTime? then r
    else if ending.TooLate? then Result(Timeout, r.usage, FailClosed(q, TimeoutReason), r.attempts)
    else Result(Cancelled, r.usage, FailClosed(q, ProviderError), r.attempts)
  }

  lemma ConcludeKeeps(q: Request, s: Setting, parse: Response -> Parsed, r: Result)
    requires r.attempts > 0 && JudgesEachOnce(q, r.verdicts) && Outcome(s.(ending := InTime), parse, r)
    ensures var c := Conclude(q, s.provider(r.attempts - 1), s.ending, r);
      JudgesEachOnce(q, c.verdicts) && Outcome(s, parse, c)
  {
  }

  method RunChild(q: Request, s: Setting, ghost parse: Response -> Parsed) returns (r: Result)
    requires ValidRequest(q) && IsParsing(q, parse) && s.budget == q.budget
    ensures JudgesEachOnce(q, r.verdicts) && Outcome(s, parse, r)
  {
    var usage, attempts := Usage(0, 0), 0;
    match s.start {
      case OnTime =>
      case Late => return Result(Timeout, usage, FailClosed(q, TimeoutReason), attempts);
      case CancelledFirst => return Result(Cancelled, usage, FailClosed(q, ProviderError), attempts);
    }
    if Estimate(s.lengths) > q.budget.inputTokens {
      return Result(Failed, usage, FailClosed(q, BudgetExceeded), attempts);
    }
    r := AskProvider(q, s, parse);
    ConcludeKeeps(q, s, parse, r);
    r := Conclude(q, s.provider(r.attempts - 1), s.ending, r);
  }

  lemma OutcomeIsSound(q: Request, s: Setting, parse: Response -> Parsed, r: Result)
    requires s.budget == q.budget && JudgesEachOnce(q, r.verdicts) && Outcome(s, parse, r)
    requires r.status == Completed ==> CitesOwnEvidence(q, r.verdicts)
    ensures Sound(q, r)
  {
  }

  /**
   * Runs the child in any surroundings.  It completes exactly when its last call delivers and
   * the run ends in time; otherwise every claim is escalated.  It asks again whenever it may and
   * the budget allows.
   */
  method Verify(q: Request, s: Setting) returns (r: Result)
    requires ValidRequest(q) && s.budget == q.budget
    ensures Outcome(s, Parsing(q), r) && Sound(q, r)
    ensures r.status == Completed ==> Usable(q, s.provider(r.attempts - 1).response, r.verdicts)
  {
    r := RunChild(q, s, Parsing(q));
    if r.status == Completed {
      ParseMeans(q, s.provider(r.attempts - 1).response);
    }
    OutcomeIsSound(q, s, Parsing(q), r);
  }

  /** The status and reason that each kind of last event leads to in a run that ends in time. */
  lemma OutcomeReasons(s: Setting, parse: Response -> Parsed, r: Result)
    requires Outcome(s, parse, r) && r.attempts > 0 && s.ending.InTime?
    ensures var e, last := s.provider(r.attempts - 1), r.attempts > s.budget.retries;
      && (e.DeadlineStruck? ==> r.status == Timeout && AllEscalated(r.verdicts, TimeoutReason))
      && (e.CancelStruck? ==> r.status == Cancelled && AllEscalated(r.verdicts, ProviderError))
      && (e.Broken? ==> r.status == Failed && AllEscalated(r.verdicts, ProviderError))
      && (last && e.Transient? ==> r.status == Failed && AllEscalated(r.verdicts, ProviderError))
      && (last && e.TimedOut? ==> r.status == Timeout && AllEscalated(r.verdicts, TimeoutReason))
      && (!last && (e.Transient? || e.TimedOut?) ==> r.status == Failed && AllEscalated(r.verdicts, BudgetExceeded))
      && (e.Answer? && !WithinBudget(r.usage, s.budget) ==>
            r.status == Failed && AllEscalated(r.verdicts, BudgetExceeded))
      && (last && e.Answer? && WithinBudget(r.usage, s.budget) && parse(e.response).Malformed? ==>
            r.status == Failed && AllEscalated(r.verdicts, MalformedResponse))
  {
  }

  /** Staying within both budgets is all there is to it: the test on the total adds nothing. */
  lemma WithinMeans(u: Usage, b: Budget)
    ensures WithinBudget(u, b) <==> u.input <= b.inputTokens && u.output <= b.outputTokens
  {
  }

  /** The usage after a call is the usage before it plus what the provider reported, each kind for itself. */
  lemma UsageAdds(provider: nat -> ProviderEvent, n: nat)
    ensures UsageOver(provider, 0) == Usage(0, 0)
    ensures var before, after := UsageOver(provider, n), UsageOver(provider, n + 1);
      if provider(n).Answer?
      then after == Usage(before.input + provider(n).response.usage.input, before.output + provider(n).response.usage.output)
      else after == before
  {
  }

  /** No call is made whose prompt, with all that was used before it, would overdraw the input budget. */
  lemma CallsFit(s: Setting, parse: Response -> Parsed, r: Result, k: nat)
    requires Outcome(s, parse, r) && k < r.attempts
    ensures UsageOver(s.provider, k).input + Estimate(Sent(s.provider, s.lengths, k)) <= s.budget.inputTokens
    ensures UsageOver(s.provider, k).output < s.budget.outputTokens
  {
    assert Affordable(s.budget, Sent(s.provider, s.lengths, k), UsageOver(s.provider, k));
  }

  /** What a usable answer says of a claim: the words fit together, and support comes with the claim's own evidence. */
  lemma UsableMeans(q: Request, r: Response, vs: seq<Verdict>, i: nat, k: nat)
    requires Usable(q, r, vs) && i < |vs| && k < |q.claims| && vs[i].claimId == q.claims[k].claimId
    ensures Says(RawVerdicts(r).value[i], vs[i])
    ensures forall id :: id in vs[i].evidenceIds ==> id in q.claims[k].evidenceIds
    ensures vs[i].status == Supported ==> vs[i].reason == EvidenceSupports && vs[i].evidenceIds != []
    ensures vs[i].status == Rejected ==> vs[i].reason == EvidenceContradicts
    ensures vs[i].status == Escalate ==> vs[i].reason == InsufficientEvidence || vs[i].reason == InvalidCitation
  {
    forall id | id in vs[i].evidenceIds ensures id in q.claims[k].evidenceIds {
      var j :| 0 <= j < |vs[i].evidenceIds| && vs[i].evidenceIds[j] == id;
    }
  }

  // ----- Exactly when another call follows -----

  /** After any call, another follows exactly when one is due and its estimate fits the budget. */
  lemma FollowedExactlyWhen(s: Setting, parse: Response -> Parsed, r: Result, n: nat)
    requires Outcome(s, parse, r) && n < r.attempts
    ensures r.attempts > n + 1 <==>
            Due(s, parse, n + 1) && Affordable(s.budget, Sent(s.provider, s.lengths, n + 1), UsageOver(s.provider, n + 1))
  {
    if r.attempts > n + 1 {
      assert Retryable(s.budget, parse, s.provider(n), UsageOver(s.provider, n + 1));
    }
  }

  lemma AffordableIsWithin(b: Budget, messages: seq<nat>, u: Usage)
    requires Affordable(b, messages, u)
    ensures WithinBudget(u, b)
  {
  }

  /**
   * After an answer another call follows exactly when a retry is left, the next prompt's estimate
   * fits the budget, and the answer neither is usable nor breaks parsing.
   */
  lemma RetriedExactlyWhen(q: Request, s: Setting, r: Result, n: nat)
    requires s.budget == q.budget && Outcome(s, Parsing(q), r) && n < r.attempts && s.provider(n).Answer?
    ensures r.attempts > n + 1 <==>
      && n < s.budget.retries
      && Affordable(s.budget, Sent(s.provider, s.lengths, n + 1), UsageOver(s.provider, n + 1))
      && !Breaks(s.provider(n).response) && !exists vs :: Usable(q, s.provider(n).response, vs)
  {
    var messages, u := Sent(s.provider, s.lengths, n + 1), UsageOver(s.provider, n + 1);
    FollowedExactlyWhen(s, Parsing(q), r, n);
    ParseMeans(q, s.provider(n).response);
    if Affordable(s.budget, messages, u) { AffordableIsWithin(s.budget, messages, u); }
    AnswerDue(s, Parsing(q), n);
  }

  lemma AnswerDue(s: Setting, parse: Response -> Parsed, n: nat)
    requires s.provider(n).Answer?
    ensures Due(s, parse, n + 1) <==>
      n < s.budget.retries && WithinBudget(UsageOver(s.provider, n + 1), s.budget) && parse(s.provider(n).response).Malformed?
  {
  }

  // ----- Unusable answers within budget that are not followed by another call -----

  /** One verdict, valid but for the given confidence. */
  function Claiming(id: string, confidence: int): Json {
    Obj(map["claim_id" := Str(id), "status" := Str("escalate"), "reason_code" := Str("insufficient_evidence"),
            "confidence" := Int(confidence), "evidence_ids" := Arr([])])
  }

  function Reply(id: string, confidence: int): Response {
    Response(0, Some(Decoded(Obj(map["verdicts" := Arr([Claiming(id, confidence)])]))), Usage(0, 0))
  }

  /** Of two confidences that are out of range, the small one is malformed and the huge one breaks parsing. */
  lemma ConfidenceMayBreak(id: string, confidence: int)
    requires SafeId(id) && !(0 <= confidence <= 1)
    ensures VerdictOf(Claiming(id, confidence)).None?
    ensures Breaks(Reply(id, confidence)) <==> !FitsFloat(confidence)
  {
    var raw := Claiming(id, confidence);
    assert TextsOf([]) == Some([]);
    assert Overflows(raw) <==> !FitsFloat(confidence);
    if !FitsFloat(confidence) {
      assert BreaksAt([raw], 0);
    }
  }

  /** The first answer of a run that was asked for in time and ends in time. */
  ghost predicate FirstAnswer(s: Setting, reply: Response) {
    && s.start.OnTime? && s.ending.InTime? && Estimate(s.lengths) <= s.budget.inputTokens
    && s.provider(0) == Answer(reply) && WithinBudget(reply.usage, s.budget)
  }

  lemma FirstUsage(s: Setting, reply: Response)
    requires FirstAnswer(s, reply)
    ensures UsageOver(s.provider, 1) == reply.usage
    ensures Sent(s.provider, s.lengths, 1) == s.lengths + [RETRY_NOTE_BYTES]
  {
    assert UsageOver(s.provider, 1) == Plus(UsageOver(s.provider, 0), reply.usage);
    assert Sent(s.provider, s.lengths, 1) == Sent(s.provider, s.lengths, 0) + [RETRY_NOTE_BYTES];
  }

  lemma CrashEndsTheRun(s: Setting, parse: Response -> Parsed, reply: Response, r: Result)
    requires Outcome(s, parse, r) && FirstAnswer(s, reply) && parse(reply).Crashed?
    ensures r.attempts == 1 && r.status == Failed && AllEscalated(r.verdicts, ProviderError)
  {
    FirstUsage(s, reply);
    FollowedExactlyWhen(s, parse, r, 0);
  }

  lemma StarvationEndsTheRun(s: Setting, parse: Response -> Parsed, reply: Response, r: Result)
    requires Outcome(s, parse, r) && FirstAnswer(s, reply) && parse(reply).Malformed? && s.budget.retries > 0
    requires !Affordable(s.budget, s.lengths + [RETRY_NOTE_BYTES], reply.usage)
    ensures r.attempts == 1 && r.status == Failed && AllEscalated(r.verdicts, BudgetExceeded)
  {
    FirstUsage(s, reply);
    FollowedExactlyWhen(s, parse, r, 0);
  }

  /** Whether or not a retry is left, a first answer that breaks parsing ends the run as a provider error. */
  lemma BreakEndsTheRun(q: Request, s: Setting, reply: Response, r: Result)
    requires s.budget == q.budget && Outcome(s, Parsing(q), r) && FirstAnswer(s, reply) && Breaks(reply)
    ensures !exists vs :: Usable(q, reply, vs)
    ensures r.attempts == 1 && r.status == Failed && AllEscalated(r.verdicts, ProviderError)
  {
    ParseMeans(q, reply);
    CrashEndsTheRun(s, Parsing(q), reply, r);
  }

  /** So does a huge confidence, in an answer that is within any budget. */
  lemma UnusableButNotRetried(q: Request, s: Setting, reply: Response, r: Result)
    requires ValidRequest(q) && s.budget == q.budget && Outcome(s, Parsing(q), r)
    requires s.start.OnTime? && s.ending.InTime? && Estimate(s.lengths) <= s.budget.inputTokens
    requires s.provider(0) == Answer(reply) && reply == Reply(q.claims[0].claimId, FLOAT_LIMIT)
    ensures FirstAnswer(s, reply) && !exists vs :: Usable(q, reply, vs)
    ensures r.attempts == 1 && r.status == Failed && AllEscalated(r.verdicts, ProviderError)
  {
    ConfidenceMayBreak(q.claims[0].claimId, FLOAT_LIMIT);
    BreakEndsTheRun(q, s, reply, r);
  }

  lemma NothingLeft()
    ensures Estimate([0]) == 8 && !Affordable(Budget(8, 1, 1), [0] + [RETRY_NOTE_BYTES], Usage(8, 0))
  {
    assert [0] + [RETRY_NOTE_BYTES] == [0, RETRY_NOTE_BYTES];
  }

  lemma NotJsonIsMalformed(q: Request, reply: Response)
    requires reply.content == Some(NotJson)
    ensures Parse(q, reply) == Malformed && !Breaks(reply) && !exists vs :: Usable(q, reply, vs)
  {
    ParseMeans(q, reply);
  }

  /** A malformed answer may use up what the next prompt needs: a retry is left, yet no call follows. */
  lemma UnaffordableNotRetried(q: Request, s: Setting, reply: Response, r: Result)
    requires s.budget == q.budget == Budget(8, 1, 1) && s.lengths == [0] && Outcome(s, Parsing(q), r)
    requires s.start.OnTime? && s.ending.InTime?
    requires s.provider(0) == Answer(reply) && reply == Response(0, Some(NotJson), Usage(8, 0))
    ensures FirstAnswer(s, reply) && !Breaks(reply) && !exists vs :: Usable(q, reply, vs)
    ensures r.attempts == 1 && r.status == Failed && AllEscalated(r.verdicts, BudgetExceeded)
  {
    NothingLeft();
    NotJsonIsMalformed(q, reply);
    StarvationEndsTheRun(s, Parsing(q), reply, r);
  }
}
