/**
 * Delegation envelopes: which ones are well formed, the canonical text that gets signed, and
 * why that text pins down every field.
 */
module Envelope {
  import opened Strings
  import opened Numbers

  /** A JSON number: an integer, or a float given by its shortest decimal text. */
  datatype Number = Whole(n: nat) | Fraction(text: string)

  datatype Entry = Entry(key: string, value: Number)

  datatype Envelope = Envelope(parentRunId: string, childRunId: string, ownerId: string, projectId: string,
                               contextHash: string, budget: seq<Entry>, schemaVersion: nat, issuedAt: nat,
                               nonce: string, keyVersion: nat, signature: string)

  // ----- Validation -----

  predicate IdChar(c: char) { Alnum(c) || c in "._:-" }

  predicate UrlChar(c: char) { Alnum(c) || c in "_-" }

  predicate SafeId(s: string) {
    1 <= |s| <= 255 && Alnum(s[0]) && forall i :: 0 <= i < |s| ==> IdChar(s[i])
  }

  predicate SafeNonce(s: string) {
    8 <= |s| <= 255 && forall i :: 0 <= i < |s| ==> UrlChar(s[i])
  }

  predicate Sha256(s: string) {
    |s| == 64 && forall i :: 0 <= i < |s| ==> HexChar(s[i])
  }

  predicate SafeSignature(s: string) {
    |s| == 43 && forall i :: 0 <= i < |s| ==> UrlChar(s[i])
  }

  const BUDGET_KEYS: set<string> :=
    {"input_tokens", "output_tokens", "retries", "timeout_seconds", "cost_nusd", "max_tool_result_chars"}

  predicate FloatChar(c: char) { '0' <= c <= '9' || c in ".e+-" }

  /** The text of a positive finite float: it always shows a point or an exponent. */
  predicate FloatText(s: string) {
    1 <= |s| && s[0] != '-' && s != "0.0" &&
    (forall i :: 0 <= i < |s| ==> FloatChar(s[i])) &&
    exists i :: 0 <= i < |s| && s[i] in ".e"
  }

  predicate ValidEntry(e: Entry) {
    e.key in BUDGET_KEYS &&
    match e.value
    case Fraction(text) => e.key == "timeout_seconds" && FloatText(text)
    case Whole(n) => (e.key in {"cost_nusd", "retries"} || n >= 1) && (e.key == "timeout_seconds" ==> FitsFloat(n))
  }

  predicate ValidBudget(b: seq<Entry>) {
    1 <= |b| <= 6 && (forall i :: 0 <= i < |b| ==> ValidEntry(b[i])) &&
    forall i, j :: 0 <= i < j < |b| ==> Less(b[i].key, b[j].key)
  }

  predicate Valid(e: Envelope) {
    && SafeId(e.parentRunId) && SafeId(e.childRunId) && SafeId(e.ownerId) && SafeId(e.projectId)
    && SafeNonce(e.nonce) && Sha256(e.contextHash)
    && e.schemaVersion == 1 && e.issuedAt >= 1 && 1 <= e.keyVersion <= 255
    && (e.signature == "" || SafeSignature(e.signature))
    && ValidBudget(e.budget)
  }

  // ----- The signed text: compact JSON with sorted keys -----

  function NumberText(v: Number): string {
    match v
    case Whole(n) => Decimal(n)
    case Fraction(text) => text
  }

  function EntryText(e: Entry): string {
    "\"" + e.key + "\":" + NumberText(e.value)
  }

  function BudgetText(b: seq<Entry>): string
    requires b != []
  {
    EntryText(b[0]) + if |b| == 1 then "}" else "," + BudgetText(b[1..])
  }

  /** A member of the object: what precedes the value, the value, and the character that ends it. */
  datatype Member = Member(lead: string, value: string, stop: char)

  function Render(ms: seq<Member>): string {
    if ms == [] then "" else ms[0].lead + ms[0].value + [ms[0].stop] + Render(ms[1..])
  }

  function Members(e: Envelope): seq<Member> {
    [ Member("\"child_run_id\":\"", e.childRunId, '\"'),
      Member(",\"context_hash\":\"", e.contextHash, '\"'),
      Member(",\"issued_at\":", Decimal(e.issuedAt), ','),
      Member("\"key_version\":", Decimal(e.keyVersion), ','),
      Member("\"nonce\":\"", e.nonce, '\"'),
      Member(",\"owner_id\":\"", e.ownerId, '\"'),
      Member(",\"parent_run_id\":\"", e.parentRunId, '\"'),
      Member(",\"project_id\":\"", e.projectId, '\"'),
      Member(",\"schema_version\":", Decimal(e.schemaVersion), '}') ]
  }

  function UnsignedPayload(e: Envelope): string
    requires e.budget != []
  {
    "{\"budget\":{" + BudgetText(e.budget) + "," + Render(Members(e))
  }

  // ----- The text determines the envelope -----

  lemma NumberTextInjective(v: Number, w: Number)
    requires v.Fraction? ==> FloatText(v.text)
    requires w.Fraction? ==> FloatText(w.text)
    requires NumberText(v) == NumberText(w)
    ensures v == w
  {
    if v.Whole? && w.Whole? {
      DecimalInjective(v.n, w.n);
    } else if v.Whole? || w.Whole? {
      assert false;
    }
  }

  lemma NumberTextPlain(v: Number)
    requires v.Fraction? ==> FloatText(v.text)
    ensures Avoids(NumberText(v), {',', '}'})
  {
  }

  lemma KeysPlain(key: string)
    requires key in BUDGET_KEYS
    ensures Avoids(key, {'\"'})
  {
  }

  lemma EntrySplit(key: string, number: string, x: string, r: string)
    ensures "\"" + key + "\":" + number + x + r == "\"" + (key + ['\"'] + (":" + (number + x + r)))
  {
    var tail := number + x + r;
    assert "\":" == ['\"'] + ":";
    Associate("\"" + key, "\":", number, x + r);
    Associate("\"" + key + "\":", number, x, r);
    Associate("\"", key, ['\"'], ":" + tail);
    Associate("\"" + key, ['\"'], ":", tail);
  }

  lemma EntryCut(a: Entry, x: char, r: string, b: Entry, y: char, q: string)
    requires ValidEntry(a) && ValidEntry(b) && x in {',', '}'} && y in {',', '}'}
    requires EntryText(a) + [x] + r == EntryText(b) + [y] + q
    ensures a == b && x == y && r == q
  {
    var s, t := NumberText(a.value), NumberText(b.value);
    EntrySplit(a.key, s, [x], r);
    EntrySplit(b.key, t, [y], q);
    DropPrefix("\"", a.key + ['\"'] + (":" + (s + [x] + r)), b.key + ['\"'] + (":" + (t + [y] + q)));
    KeysPlain(a.key);
    KeysPlain(b.key);
    CutAtStop(a.key, '\"', ":" + (s + [x] + r), b.key, '\"', ":" + (t + [y] + q), {'\"'});
    DropPrefix(":", s + [x] + r, t + [y] + q);
    NumberTextPlain(a.value);
    NumberTextPlain(b.value);
    CutAtStop(s, x, r, t, y, q, {',', '}'});
    NumberTextInjective(a.value, b.value);
  }

  function Stop(b: seq<Entry>): char { if |b| == 1 then '}' else ',' }

  function Rest(b: seq<Entry>): string
    requires b != []
  {
    if |b| == 1 then "" else BudgetText(b[1..])
  }

  lemma BudgetTextSplit(b: seq<Entry>, r: string)
    requires b != []
    ensures BudgetText(b) + r == EntryText(b[0]) + [Stop(b)] + (Rest(b) + r)
  {
    var stop := if |b| == 1 then "}" else "," + BudgetText(b[1..]);
    assert stop == [Stop(b)] + Rest(b);
    Regroup(EntryText(b[0]), [Stop(b)], Rest(b), r);
  }

  lemma Regroup(a: string, b: string, c: string, d: string)
    ensures a + (b + c) + d == a + b + (c + d)
  {
  }

  /** Two budget texts that begin the same text are the same budget and leave the same rest. */
  lemma {:induction false} BudgetTextInjective(a: seq<Entry>, b: seq<Entry>, r: string, q: string)
    requires a != [] && b != []
    requires forall i :: 0 <= i < |a| ==> ValidEntry(a[i])
    requires forall i :: 0 <= i < |b| ==> ValidEntry(b[i])
    requires BudgetText(a) + r == BudgetText(b) + q
    ensures a == b && r == q
    decreases |a|
  {
    BudgetTextSplit(a, r);
    BudgetTextSplit(b, q);
    EntryCut(a[0], Stop(a), Rest(a) + r, b[0], Stop(b), Rest(b) + q);
    assert a == [a[0]] + a[1..] && b == [b[0]] + b[1..];
    if |a| > 1 {
      BudgetTextInjective(a[1..], b[1..], r, q);
    } else {
      assert Rest(a) + r == r && Rest(b) + q == q;
    }
  }

  ghost predicate SameShape(ms: seq<Member>, ns: seq<Member>) {
    |ms| == |ns| && forall i :: 0 <= i < |ms| ==>
      ms[i].lead == ns[i].lead && ms[i].stop == ns[i].stop &&
      Avoids(ms[i].value, {ms[i].stop}) && Avoids(ns[i].value, {ns[i].stop})
  }

  lemma {:induction false} RenderInjective(ms: seq<Member>, ns: seq<Member>)
    requires SameShape(ms, ns) && Render(ms) == Render(ns)
    ensures ms == ns
    decreases |ms|
  {
    if ms != [] {
      var m, n := ms[0], ns[0];
      assert Render(ms) == m.lead + (m.value + [m.stop] + Render(ms[1..]));
      assert Render(ns) == n.lead + (n.value + [n.stop] + Render(ns[1..]));
      DropPrefix(m.lead, m.value + [m.stop] + Render(ms[1..]), n.value + [n.stop] + Render(ns[1..]));
      CutAtStop(m.value, m.stop, Render(ms[1..]), n.value, n.stop, Render(ns[1..]), {m.stop});
      RenderInjective(ms[1..], ns[1..]);
      assert ms == [m] + ms[1..] && ns == [n] + ns[1..];
    }
  }

  lemma MembersInjective(e: Envelope, f: Envelope)
    requires Members(e) == Members(f) && e.budget == f.budget && e.schemaVersion == f.schemaVersion
    ensures e.(signature := "") == f.(signature := "")
  {
    var me, mf := Members(e), Members(f);
    assert me[0] == mf[0] && me[1] == mf[1] && me[2] == mf[2] && me[3] == mf[3];
    assert me[4] == mf[4] && me[5] == mf[5] && me[6] == mf[6] && me[7] == mf[7];
    DecimalInjective(e.issuedAt, f.issuedAt);
    DecimalInjective(e.keyVersion, f.keyVersion);
  }

  lemma MembersPlain(e: Envelope, i: nat)
    requires Valid(e) && i < |Members(e)|
    ensures Avoids(Members(e)[i].value, {Members(e)[i].stop})
  {
  }

  lemma MembersShape(e: Envelope, f: Envelope)
    requires Valid(e) && Valid(f)
    ensures SameShape(Members(e), Members(f))
  {
    forall i | 0 <= i < |Members(e)|
      ensures Avoids(Members(e)[i].value, {Members(e)[i].stop}) && Avoids(Members(f)[i].value, {Members(f)[i].stop})
    {
      MembersPlain(e, i);
      MembersPlain(f, i);
    }
  }

  lemma PayloadSplit(e: Envelope)
    requires e.budget != []
    ensures UnsignedPayload(e) == "{\"budget\":{" + (BudgetText(e.budget) + ("," + Render(Members(e))))
  {
    Associate("{\"budget\":{", BudgetText(e.budget), ",", Render(Members(e)));
  }

  lemma Associate(a: string, b: string, c: string, d: string)
    ensures a + b + c + d == a + (b + (c + d))
  {
  }

  /** Equal signed texts force every field and every budget entry to be equal. */
  lemma PayloadInjective(e: Envelope, f: Envelope)
    requires Valid(e) && Valid(f) && UnsignedPayload(e) == UnsignedPayload(f)
    ensures e.(signature := "") == f.(signature := "")
  {
    var re, rf := Render(Members(e)), Render(Members(f));
    PayloadSplit(e);
    PayloadSplit(f);
    DropPrefix("{\"budget\":{", BudgetText(e.budget) + ("," + re), BudgetText(f.budget) + ("," + rf));
    BudgetTextInjective(e.budget, f.budget, "," + re, "," + rf);
    DropPrefix(",", re, rf);
    MembersShape(e, f);
    RenderInjective(Members(e), Members(f));
    MembersInjective(e, f);
  }
}
