/** The signed text is what a JSON encoder with compact separators and sorted keys makes of the record. */
module SignedText {
  import opened Strings
  import opened Envelope

  datatype Json = Text(s: string) | Numeral(t: string) | Object(fields: seq<Field>)

  datatype Field = Field(name: string, value: Json)

  /** Compact JSON; the texts that occur need no escaping. */
  function Compact(j: Json): string {
    match j
    case Text(s) => "\"" + s + "\""
    case Numeral(t) => t
    case Object(fs) => "{" + CompactFields(fs) + "}"
  }

  function CompactFields(fs: seq<Field>): string {
    if fs == [] then ""
    else if |fs| == 1 then CompactField(fs[0])
    else CompactField(fs[0]) + "," + CompactFields(fs[1..])
  }

  function CompactField(f: Field): string {
    "\"" + f.name + "\":" + Compact(f.value)
  }

  function BudgetFields(b: seq<Entry>): seq<Field> {
    seq(|b|, i requires 0 <= i < |b| => Field(b[i].key, Numeral(NumberText(b[i].value))))
  }

  /** The record without its signature, field by field. */
  function Record(e: Envelope): seq<Field> {
    [ Field("budget", Object(BudgetFields(e.budget))),
      Field("child_run_id", Text(e.childRunId)),
      Field("context_hash", Text(e.contextHash)),
      Field("issued_at", Numeral(Decimal(e.issuedAt))),
      Field("key_version", Numeral(Decimal(e.keyVersion))),
      Field("nonce", Text(e.nonce)),
      Field("owner_id", Text(e.ownerId)),
      Field("parent_run_id", Text(e.parentRunId)),
      Field("project_id", Text(e.projectId)),
      Field("schema_version", Numeral(Decimal(e.schemaVersion))) ]
  }

  lemma {:induction false} BudgetIsCompact(b: seq<Entry>)
    requires b != []
    ensures BudgetText(b) == CompactFields(BudgetFields(b)) + "}"
    decreases |b|
  {
    var fs := BudgetFields(b);
    assert EntryText(b[0]) == CompactField(fs[0]);
    if |b| > 1 {
      BudgetIsCompact(b[1..]);
      assert fs[1..] == BudgetFields(b[1..]);
      LastBrace(CompactField(fs[0]), CompactFields(fs[1..]));
    }
  }

  lemma LastBrace(a: string, b: string)
    ensures a + ("," + (b + "}")) == a + "," + b + "}"
  {
  }

  function Lead(name: string, quoted: bool, comma: bool): string {
    (if comma then "," else "") + "\"" + name + (if quoted then "\":\"" else "\":")
  }

  /** The members are the fields, after a comma if the first lead brings it. */
  ghost predicate Follows(ms: seq<Member>, fs: seq<Field>, comma: bool) {
    fs != [] && Render(ms) == (if comma then "," else "") + CompactFields(fs) + "}"
  }

  lemma RenderCons(m: Member, ms: seq<Member>)
    ensures Render([m] + ms) == m.lead + m.value + [m.stop] + Render(ms)
  {
    assert ([m] + ms)[1..] == ms;
  }

  lemma CompactCons(f: Field, fs: seq<Field>)
    requires fs != []
    ensures CompactFields([f] + fs) == CompactField(f) + "," + CompactFields(fs)
  {
    assert ([f] + fs)[1..] == fs;
  }

  lemma GlueText(c: string, name: string, v: string, r: string)
    ensures c + "\"" + name + "\":\"" + v + ['\"'] + ("," + r + "}") == c + ("\"" + name + "\":" + ("\"" + v + "\"") + "," + r) + "}"
  {
  }

  lemma GlueNumber(c: string, name: string, v: string, r: string)
    ensures c + "\"" + name + "\":" + v + [','] + ("" + r + "}") == c + ("\"" + name + "\":" + v + "," + r) + "}"
  {
  }

  lemma GlueLast(c: string, name: string, v: string)
    ensures c + "\"" + name + "\":" + v + ['}'] + "" == c + ("\"" + name + "\":" + v) + "}"
  {
  }

  lemma TextOn(m: Member, ms: seq<Member>, f: Field, fs: seq<Field>, comma: bool)
    requires Follows(ms, fs, true) && f.value.Text? && m == Member(Lead(f.name, true, comma), f.value.s, '\"')
    ensures Follows([m] + ms, [f] + fs, comma)
  {
    RenderCons(m, ms);
    CompactCons(f, fs);
    GlueText(if comma then "," else "", f.name, f.value.s, CompactFields(fs));
  }

  lemma NumberOn(m: Member, ms: seq<Member>, f: Field, fs: seq<Field>, comma: bool)
    requires Follows(ms, fs, false) && f.value.Numeral? && m == Member(Lead(f.name, false, comma), f.value.t, ',')
    ensures Follows([m] + ms, [f] + fs, comma)
  {
    RenderCons(m, ms);
    CompactCons(f, fs);
    GlueNumber(if comma then "," else "", f.name, f.value.t, CompactFields(fs));
  }

  lemma LastOn(m: Member, f: Field, comma: bool)
    requires f.value.Numeral? && m == Member(Lead(f.name, false, comma), f.value.t, '}')
    ensures Follows([m], [f], comma)
  {
    RenderCons(m, []);
    assert [m] + [] == [m] && Render([]) == "";
    assert CompactFields([f]) == CompactField(f) == "\"" + f.name + "\":" + f.value.t;
    GlueLast(if comma then "," else "", f.name, f.value.t);
  }

  /** The leads put together from the names. */
  lemma LeadsFirst()
    ensures "\"child_run_id\":\"" == Lead("child_run_id", true, false)
    ensures ",\"context_hash\":\"" == Lead("context_hash", true, true)
    ensures ",\"issued_at\":" == Lead("issued_at", false, true)
    ensures "\"key_version\":" == Lead("key_version", false, false)
  {
  }

  lemma LeadsLast()
    ensures "\"nonce\":\"" == Lead("nonce", true, false)
    ensures ",\"owner_id\":\"" == Lead("owner_id", true, true)
    ensures ",\"parent_run_id\":\"" == Lead("parent_run_id", true, true)
    ensures ",\"project_id\":\"" == Lead("project_id", true, true)
    ensures ",\"schema_version\":" == Lead("schema_version", false, true)
  {
  }

  /** Member k renders field k + 1 as a text, or as a number. */
  ghost predicate IsText(ms: seq<Member>, fs: seq<Field>, k: nat, comma: bool)
    requires k < |ms| && k + 1 < |fs|
  {
    fs[k + 1].value.Text? && ms[k] == Member(Lead(fs[k + 1].name, true, comma), fs[k + 1].value.s, '\"')
  }

  ghost predicate IsNumber(ms: seq<Member>, fs: seq<Field>, k: nat, comma: bool)
    requires k < |ms| && k + 1 < |fs|
  {
    fs[k + 1].value.Numeral? && ms[k] == Member(Lead(fs[k + 1].name, false, comma), fs[k + 1].value.t, ',')
  }

  lemma FirstMembers(e: Envelope)
    ensures var ms, fs := Members(e), Record(e);
      IsText(ms, fs, 0, false) && IsText(ms, fs, 1, true) && IsNumber(ms, fs, 2, true) && IsNumber(ms, fs, 3, false)
  {
    LeadsFirst();
  }

  lemma LastMembers(e: Envelope)
    ensures var ms, fs := Members(e), Record(e);
      && IsText(ms, fs, 4, false) && IsText(ms, fs, 5, true) && IsText(ms, fs, 6, true) && IsText(ms, fs, 7, true)
      && fs[9].value.Numeral? && ms[8] == Member(Lead(fs[9].name, false, true), fs[9].value.t, '}')
  {
    LeadsLast();
  }

  lemma TextAt(ms: seq<Member>, fs: seq<Field>, k: nat, comma: bool)
    requires k < |ms| && k + 1 < |fs| && IsText(ms, fs, k, comma) && Follows(ms[k + 1..], fs[k + 2..], true)
    ensures Follows(ms[k..], fs[k + 1..], comma)
  {
    assert ms[k..] == [ms[k]] + ms[k + 1..] && fs[k + 1..] == [fs[k + 1]] + fs[k + 2..];
    TextOn(ms[k], ms[k + 1..], fs[k + 1], fs[k + 2..], comma);
  }

  lemma NumberAt(ms: seq<Member>, fs: seq<Field>, k: nat, comma: bool)
    requires k < |ms| && k + 1 < |fs| && IsNumber(ms, fs, k, comma) && Follows(ms[k + 1..], fs[k + 2..], false)
    ensures Follows(ms[k..], fs[k + 1..], comma)
  {
    assert ms[k..] == [ms[k]] + ms[k + 1..] && fs[k + 1..] == [fs[k + 1]] + fs[k + 2..];
    NumberOn(ms[k], ms[k + 1..], fs[k + 1], fs[k + 2..], comma);
  }

  lemma LastFive(ms: seq<Member>, fs: seq<Field>)
    requires |ms| == 9 && |fs| == 10
    requires IsText(ms, fs, 4, false) && IsText(ms, fs, 5, true) && IsText(ms, fs, 6, true) && IsText(ms, fs, 7, true)
    requires fs[9].value.Numeral? && ms[8] == Member(Lead(fs[9].name, false, true), fs[9].value.t, '}')
    ensures Follows(ms[4..], fs[5..], false)
  {
    LastOn(ms[8], fs[9], true);
    assert ms[8..] == [ms[8]] && fs[9..] == [fs[9]];
    TextAt(ms, fs, 7, true);
    TextAt(ms, fs, 6, true);
    TextAt(ms, fs, 5, true);
    TextAt(ms, fs, 4, false);
  }

  lemma FirstFour(ms: seq<Member>, fs: seq<Field>)
    requires |ms| == 9 && |fs| == 10 && Follows(ms[4..], fs[5..], false)
    requires IsText(ms, fs, 0, false) && IsText(ms, fs, 1, true) && IsNumber(ms, fs, 2, true) && IsNumber(ms, fs, 3, false)
    ensures Follows(ms, fs[1..], false)
  {
    NumberAt(ms, fs, 3, false);
    NumberAt(ms, fs, 2, true);
    TextAt(ms, fs, 1, true);
    TextAt(ms, fs, 0, false);
    assert ms[0..] == ms;
  }

  lemma MembersAreCompact(e: Envelope)
    ensures Follows(Members(e), Record(e)[1..], false)
  {
    FirstMembers(e);
    LastMembers(e);
    LastFive(Members(e), Record(e));
    FirstFour(Members(e), Record(e));
  }

  lemma BudgetMember(e: Envelope)
    requires e.budget != []
    ensures "\"budget\":{" + BudgetText(e.budget) == CompactField(Record(e)[0])
  {
    BudgetIsCompact(e.budget);
    var b := CompactFields(BudgetFields(e.budget));
    assert Compact(Object(BudgetFields(e.budget))) == "{" + b + "}";
    BudgetGlue(b);
  }

  lemma BudgetGlue(b: string)
    ensures "\"budget\":{" + (b + "}") == "\"" + "budget" + "\":" + ("{" + b + "}")
  {
  }

  lemma RecordText(fs: seq<Field>)
    requires |fs| > 1
    ensures Compact(Object(fs)) == "{" + (CompactField(fs[0]) + "," + CompactFields(fs[1..])) + "}"
  {
  }

  /** The signed text is the compact JSON of the record. */
  lemma PayloadIsCompactJson(e: Envelope)
    requires e.budget != []
    ensures UnsignedPayload(e) == Compact(Object(Record(e)))
  {
    var fs := Record(e);
    BudgetMember(e);
    MembersAreCompact(e);
    RecordText(fs);
    PayloadFrom(e, CompactField(fs[0]), CompactFields(fs[1..]));
  }

  lemma PayloadFrom(e: Envelope, f: string, r: string)
    requires e.budget != [] && "\"budget\":{" + BudgetText(e.budget) == f && Render(Members(e)) == "" + r + "}"
    ensures UnsignedPayload(e) == "{" + (f + "," + r) + "}"
  {
    assert "" + r + "}" == r + "}";
    PayloadGlue(BudgetText(e.budget), f, r);
  }

  lemma PayloadGlue(b: string, f: string, r: string)
    requires "\"budget\":{" + b == f
    ensures "{\"budget\":{" + b + "," + (r + "}") == "{" + (f + "," + r) + "}"
  {
    assert "{\"budget\":{" == "{" + "\"budget\":{";
  }

  function NameOf(k: nat): string
    requires k < 10
  {
    ["budget", "child_run_id", "context_hash", "issued_at", "key_version", "nonce", "owner_id", "parent_run_id",
     "project_id", "schema_version"][k]
  }

  lemma NextName(k: nat)
    requires k < 9
    ensures Less(NameOf(k), NameOf(k + 1))
  {
    if k == 1 { LessAfter("c", "hild_run_id", "ontext_hash"); }
    if k == 7 { LessAfter("p", "arent_run_id", "roject_id"); }
  }

  lemma LessAfter(p: string, a: string, b: string)
    requires |p| == 1 && Less(a, b)
    ensures Less(p + a, p + b)
  {
    assert (p + a)[1..] == a && (p + b)[1..] == b;
  }

  lemma {:induction false} NamesOrdered(i: nat, j: nat)
    requires i < j < 10
    ensures Less(NameOf(i), NameOf(j))
    decreases j
  {
    NextName(j - 1);
    if i < j - 1 {
      NamesOrdered(i, j - 1);
      LeTransitive(NameOf(i), NameOf(j - 1), NameOf(j));
      if NameOf(i) == NameOf(j) { LeAntisymmetric(NameOf(j - 1), NameOf(j)); }
    }
  }

  /** The keys of the record are in order, so sorting them changes nothing. */
  lemma KeysOrdered(e: Envelope)
    ensures forall i, j :: 0 <= i < j < |Record(e)| ==> Less(Record(e)[i].name, Record(e)[j].name)
  {
    forall i, j | 0 <= i < j < 10 ensures Less(Record(e)[i].name, Record(e)[j].name) {
      NamesOrdered(i, j);
      assert Record(e)[i].name == NameOf(i) && Record(e)[j].name == NameOf(j);
    }
  }
}
