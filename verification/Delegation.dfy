/**
 * Issuing and consuming signed envelopes.  Receipts make each envelope usable once, although
 * old receipts are deleted inside the transaction that inserts a new one.
 */
module Delegation {
  import opened Strings
  import opened Envelope
  import Sorting

  type Key = seq<bv8>

  /** HMAC-SHA-256 followed by unpadded base64url, as any function of key and text. */
  type Mac = (Key, string) -> string

  const DOMAIN := "cogentrex.delegation-envelope.v1\0"

  datatype Config = Config(keys: map<nat, Key>, active: nat, maxAge: int, futureSkew: int)

  ghost predicate ValidConfig(cfg: Config) {
    && cfg.active in cfg.keys
    && (forall v :: v in cfg.keys ==> 1 <= v <= 255 && |cfg.keys[v]| >= 32)
    && (forall v, w :: v in cfg.keys && w in cfg.keys && cfg.keys[v] == cfg.keys[w] ==> v == w)
    && 1 <= cfg.maxAge <= 86_400 && 0 <= cfg.futureSkew <= 300
  }

  datatype Scope = Scope(ownerId: string, projectId: string, parentRunId: string, childRunId: string,
                         contextHash: string)

  datatype Receipt = Receipt(keyVersion: nat, ownerId: string, projectId: string, parentRunId: string,
                             childRunId: string, signature: string, issuedAt: int, receivedAt: int)

  type Table = map<string, Receipt>

  function Signature(mac: Mac, key: Key, e: Envelope): string
    requires e.budget != []
  {
    mac(key, SignedText(e))
  }

  predicate Authentic(cfg: Config, mac: Mac, e: Envelope)
    requires e.budget != []
  {
    e.keyVersion in cfg.keys && Signature(mac, cfg.keys[e.keyVersion], e) == e.signature
  }

  predicate InWindow(cfg: Config, e: Envelope, now: int) {
    now - cfg.maxAge <= e.issuedAt <= now + cfg.futureSkew
  }

  predicate InScope(e: Envelope, s: Scope) {
    s == Scope(e.ownerId, e.projectId, e.parentRunId, e.childRunId, e.contextHash)
  }

  function Purge(cfg: Config, table: Table, now: int): Table {
    map n | n in table && table[n].issuedAt >= now - cfg.maxAge - cfg.futureSkew :: table[n]
  }

  function ReceiptFor(e: Envelope, now: int): Receipt {
    Receipt(e.keyVersion, e.ownerId, e.projectId, e.parentRunId, e.childRunId, e.signature, e.issuedAt, now)
  }

  /** One call: the table afterwards and whether the envelope was consumed. */
  function Consume(cfg: Config, mac: Mac, table: Table, c: Call): (Table, bool)
    requires c.envelope.budget != []
  {
    var e := c.envelope;
    if !Authentic(cfg, mac, e) || !InWindow(cfg, e, c.now) || !InScope(e, c.scope) then (table, false)
    else if e.nonce in Purge(cfg, table, c.now) then (table, false)
    else (Purge(cfg, table, c.now)[e.nonce := ReceiptFor(e, c.now)], true)
  }

  datatype Call = Call(envelope: Envelope, scope: Scope, now: int)

  ghost predicate WellFormed(calls: seq<Call>) {
    forall i :: 0 <= i < |calls| ==> Valid(calls[i].envelope)
  }

  ghost function TableAfter(cfg: Config, mac: Mac, table: Table, calls: seq<Call>, n: nat): Table
    requires WellFormed(calls) && n <= |calls|
  {
    if n == 0 then table
    else Consume(cfg, mac, TableAfter(cfg, mac, table, calls, n - 1), calls[n - 1]).0
  }

  ghost predicate Consumed(cfg: Config, mac: Mac, table: Table, calls: seq<Call>, i: nat)
    requires WellFormed(calls) && i < |calls|
  {
    Consume(cfg, mac, TableAfter(cfg, mac, table, calls, i), calls[i]).1
  }

  /** No clock reading falls more than the allowed skew behind an earlier one. */
  ghost predicate SteadyClock(cfg: Config, calls: seq<Call>) {
    forall i, j :: 0 <= i < j < |calls| ==> calls[i].now - cfg.futureSkew <= calls[j].now
  }

  /** The receipt of a consumed envelope is still there, or some later reading had outlived it. */
  ghost predicate Remembered(cfg: Config, table: Table, calls: seq<Call>, i: nat, n: nat)
    requires i < n <= |calls|
  {
    var e := calls[i].envelope;
    || (e.nonce in table && table[e.nonce].issuedAt == e.issuedAt)
    || (exists k :: i < k < n && calls[k].now - cfg.maxAge - cfg.futureSkew > e.issuedAt)
  }

  /** One call keeps a receipt unless its clock reading has outlived it. */
  lemma ReceiptSurvives(cfg: Config, mac: Mac, table: Table, c: Call, nonce: string)
    requires Valid(c.envelope) && nonce in table && table[nonce].issuedAt >= c.now - cfg.maxAge - cfg.futureSkew
    ensures var after := Consume(cfg, mac, table, c).0;
      nonce in after && after[nonce] == table[nonce]
  {
  }

  lemma ReceiptWritten(cfg: Config, mac: Mac, table: Table, c: Call)
    requires Valid(c.envelope) && Consume(cfg, mac, table, c).1
    ensures var after := Consume(cfg, mac, table, c).0;
      c.envelope.nonce in after && after[c.envelope.nonce].issuedAt == c.envelope.issuedAt
  {
  }

  lemma {:induction false} StaysRemembered(cfg: Config, mac: Mac, table: Table, calls: seq<Call>, i: nat, n: nat)
    requires WellFormed(calls) && i < n <= |calls| && Consumed(cfg, mac, table, calls, i)
    ensures Remembered(cfg, TableAfter(cfg, mac, table, calls, n), calls, i, n)
    decreases n
  {
    var before, e := TableAfter(cfg, mac, table, calls, n - 1), calls[i].envelope;
    if n == i + 1 {
      ReceiptWritten(cfg, mac, before, calls[i]);
    } else {
      StaysRemembered(cfg, mac, table, calls, i, n - 1);
      if e.nonce in before && before[e.nonce].issuedAt == e.issuedAt {
        if calls[n - 1].now - cfg.maxAge - cfg.futureSkew <= e.issuedAt {
          ReceiptSurvives(cfg, mac, before, calls[n - 1], e.nonce);
        }
      } else {
        var k :| i < k < n - 1 && calls[k].now - cfg.maxAge - cfg.futureSkew > e.issuedAt;
        assert i < k < n;
      }
    }
  }

  /** With a steady clock no envelope is consumed twice, nor any older one under the same nonce. */
  lemma NeverConsumedTwice(cfg: Config, mac: Mac, table: Table, calls: seq<Call>, i: nat, j: nat)
    requires ValidConfig(cfg) && WellFormed(calls) && SteadyClock(cfg, calls) && i < j < |calls|
    requires calls[j].envelope.nonce == calls[i].envelope.nonce
    requires calls[j].envelope.issuedAt <= calls[i].envelope.issuedAt
    requires Consumed(cfg, mac, table, calls, i)
    ensures !Consumed(cfg, mac, table, calls, j)
  {
    StaysRemembered(cfg, mac, table, calls, i, j);
    var before := TableAfter(cfg, mac, table, calls, j);
    var e := calls[i].envelope;
    if !(e.nonce in before && before[e.nonce].issuedAt == e.issuedAt) {
      var k :| i < k < j && calls[k].now - cfg.maxAge - cfg.futureSkew > e.issuedAt;
      assert calls[k].now - cfg.futureSkew <= calls[j].now;
    }
  }

  /** Three calls whose last reading drops one second too far, and which consume e twice. */
  ghost predicate Replays(cfg: Config, mac: Mac, e: Envelope, calls: seq<Call>) {
    && |calls| == 3 && WellFormed(calls)
    && calls[0].envelope == calls[2].envelope == e
    && calls[0].now <= calls[1].now && calls[2].now == calls[1].now - cfg.futureSkew - 1
    && Consumed(cfg, mac, map[], calls, 0) && Consumed(cfg, mac, map[], calls, 2)
  }

  /** The skew bound is exact: one second more of clock drop and a replay goes through. */
  lemma ReplayBeyondSkew(cfg: Config, mac: Mac, e: Envelope, other: Envelope)
    requires ValidConfig(cfg) && Valid(e) && Valid(other)
    requires Authentic(cfg, mac, e) && Authentic(cfg, mac, other) && other.nonce != e.nonce
    requires other.issuedAt == e.issuedAt + cfg.maxAge + cfg.futureSkew + 1
    ensures exists calls: seq<Call> :: Replays(cfg, mac, e, calls)
  {
    var first, second := Call(e, ScopeOf(e), e.issuedAt), Call(other, ScopeOf(other), other.issuedAt);
    var third := Call(e, ScopeOf(e), e.issuedAt + cfg.maxAge);
    var none: Table := map[];
    var t1, t2 := none[e.nonce := ReceiptFor(e, first.now)], none[other.nonce := ReceiptFor(other, second.now)];
    assert Purge(cfg, t1, second.now) == none;
    ConsumedInto(cfg, mac, none, first, none);
    ConsumedInto(cfg, mac, t1, second, none);
    ConsumedInto(cfg, mac, t2, third, Purge(cfg, t2, third.now));
    ThreeCalls(cfg, mac, first, second, third, t1, t2);
    assert Replays(cfg, mac, e, [first, second, third]);
  }

  lemma ThreeCalls(cfg: Config, mac: Mac, a: Call, b: Call, c: Call, t1: Table, t2: Table)
    requires Valid(a.envelope) && Valid(b.envelope) && Valid(c.envelope)
    requires Consume(cfg, mac, map[], a) == (t1, true) && Consume(cfg, mac, t1, b) == (t2, true)
    requires Consume(cfg, mac, t2, c).1
    ensures var calls := [a, b, c];
      WellFormed(calls) && Consumed(cfg, mac, map[], calls, 0) && Consumed(cfg, mac, map[], calls, 2)
  {
    var calls, none: Table := [a, b, c], map[];
    assert WellFormed(calls);
    assert TableAfter(cfg, mac, none, calls, 0) == none;
    assert TableAfter(cfg, mac, none, calls, 1) == t1;
    assert TableAfter(cfg, mac, none, calls, 2) == t2;
  }

  function ScopeOf(e: Envelope): Scope {
    Scope(e.ownerId, e.projectId, e.parentRunId, e.childRunId, e.contextHash)
  }

  lemma ConsumedInto(cfg: Config, mac: Mac, table: Table, c: Call, purged: Table)
    requires Valid(c.envelope) && Authentic(cfg, mac, c.envelope) && InWindow(cfg, c.envelope, c.now)
    requires c.scope == ScopeOf(c.envelope) && Purge(cfg, table, c.now) == purged && c.envelope.nonce !in purged
    ensures Consume(cfg, mac, table, c) == (purged[c.envelope.nonce := ReceiptFor(c.envelope, c.now)], true)
  {
  }

  /** Exactly when a call consumes, what it records, and which other receipts it keeps. */
  lemma ConsumeMeans(cfg: Config, mac: Mac, table: Table, c: Call, nonce: string)
    requires Valid(c.envelope)
    ensures var e, (after, ok) := c.envelope, Consume(cfg, mac, table, c);
      && (ok <==>
            && e.keyVersion in cfg.keys && mac(cfg.keys[e.keyVersion], SignedText(e)) == e.signature
            && c.now - cfg.maxAge <= e.issuedAt && e.issuedAt <= c.now + cfg.futureSkew
            && e.ownerId == c.scope.ownerId && e.projectId == c.scope.projectId && e.parentRunId == c.scope.parentRunId
            && e.childRunId == c.scope.childRunId && e.contextHash == c.scope.contextHash
            && (e.nonce in table ==> table[e.nonce].issuedAt < c.now - cfg.maxAge - cfg.futureSkew))
      && (!ok ==> after == table)
      && (ok ==>
            && e.nonce in after
            && after[e.nonce] == Receipt(e.keyVersion, e.ownerId, e.projectId, e.parentRunId, e.childRunId, e.signature,
                                         e.issuedAt, c.now)
            && (nonce != e.nonce ==>
                  (nonce in after <==> nonce in table && table[nonce].issuedAt >= c.now - cfg.maxAge - cfg.futureSkew) &&
                  (nonce in after ==> after[nonce] == table[nonce])))
  {
  }

  // ----- Issuing -----

  predicate KeyOrder(a: Entry, b: Entry) { Le(a.key, b.key) }

  datatype Issued = Issued(envelope: Envelope) | Refused

  /** Builds, validates and signs an envelope; the budget comes as dictionary items in any order. */
  function Issue(cfg: Config, mac: Mac, scope: Scope, items: seq<Entry>, now: nat, nonce: string): Issued
    requires cfg.active in cfg.keys
  {
    var e := Envelope(scope.parentRunId, scope.childRunId, scope.ownerId, scope.projectId, scope.contextHash,
                      Sorting.Sort(items, KeyOrder), 1, now, nonce, cfg.active, "");
    if !Valid(e) then Refused
    else
      var signed := e.(signature := Signature(mac, cfg.keys[cfg.active], e));
      if Valid(signed) then Issued(signed) else Refused
  }

  /** An issued envelope is consumed exactly when scope, clock and nonce allow it. */
  lemma IssuedIsConsumable(cfg: Config, mac: Mac, scope: Scope, items: seq<Entry>, issuedAt: nat, nonce: string,
                           table: Table, presented: Scope, now: int)
    requires ValidConfig(cfg) && Issue(cfg, mac, scope, items, issuedAt, nonce).Issued?
    ensures var e := Issue(cfg, mac, scope, items, issuedAt, nonce).envelope;
      && Valid(e)
      && (Consume(cfg, mac, table, Call(e, presented, now)).1 <==>
            && presented == scope
            && now - cfg.maxAge <= issuedAt <= now + cfg.futureSkew
            && (nonce in table ==> table[nonce].issuedAt < now - cfg.maxAge - cfg.futureSkew))
  {
    var e := Issue(cfg, mac, scope, items, issuedAt, nonce).envelope;
    assert UnsignedPayload(e) == UnsignedPayload(e.(signature := ""));
  }

  /** Which budgets can be issued: dictionary items whose keys are distinct and entries valid. */
  lemma DistinctItemsAreIssued(cfg: Config, mac: Mac, scope: Scope, items: seq<Entry>, now: nat, nonce: string)
    requires ValidConfig(cfg) && forall k, t :: SafeSignature(mac(k, t))
    requires SafeId(scope.parentRunId) && SafeId(scope.childRunId) && SafeId(scope.ownerId) && SafeId(scope.projectId)
    requires Sha256(scope.contextHash) && SafeNonce(nonce) && now >= 1
    requires 1 <= |items| <= 6 && forall i :: 0 <= i < |items| ==> ValidEntry(items[i])
    requires forall i, j :: 0 <= i < j < |items| ==> items[i].key != items[j].key
    ensures Issue(cfg, mac, scope, items, now, nonce).Issued?
    ensures multiset(Issue(cfg, mac, scope, items, now, nonce).envelope.budget) == multiset(items)
  {
    var b := Sorting.Sort(items, KeyOrder);
    SortedItems(items);
    assert ValidBudget(b) by { SortedBudget(b); }
    var e := Envelope(scope.parentRunId, scope.childRunId, scope.ownerId, scope.projectId, scope.contextHash,
                      b, 1, now, nonce, cfg.active, "");
    ResignedIsValid(e, Signature(mac, cfg.keys[cfg.active], e));
  }

  lemma SortedBudget(b: seq<Entry>)
    requires 1 <= |b| <= 6 && forall i :: 0 <= i < |b| ==> ValidEntry(b[i])
    requires forall i, j :: 0 <= i < j < |b| ==> Le(b[i].key, b[j].key) && b[i].key != b[j].key
    ensures ValidBudget(b)
  {
  }

  lemma ResignedIsValid(e: Envelope, signature: string)
    requires Valid(e) && SafeSignature(signature)
    ensures Valid(e.(signature := signature))
  {
  }

  lemma SortedItems(items: seq<Entry>)
    requires forall i :: 0 <= i < |items| ==> ValidEntry(items[i])
    requires forall i, j :: 0 <= i < j < |items| ==> items[i].key != items[j].key
    ensures var b := Sorting.Sort(items, KeyOrder);
      && |b| == |items| && multiset(b) == multiset(items)
      && (forall i :: 0 <= i < |b| ==> ValidEntry(b[i]))
      && (forall i, j :: 0 <= i < j < |b| ==> Le(b[i].key, b[j].key) && b[i].key != b[j].key)
  {
    var b := Sorting.Sort(items, KeyOrder);
    KeyOrderTotal();
    Sorting.SortSorted(items, KeyOrder);
    assert |multiset(b)| == |multiset(items)|;
    forall i | 0 <= i < |b| ensures ValidEntry(b[i]) {
      Sorting.SameMembers(b, items, b[i]);
    }
    DistinctKeys(b, items);
    forall i, j | 0 <= i < j < |b| ensures Le(b[i].key, b[j].key) {
      assert KeyOrder(b[i], b[j]);
    }
  }

  lemma KeyOrderTotal()
    ensures Sorting.TotalPreorder(KeyOrder)
  {
    forall x: Entry, y: Entry ensures KeyOrder(x, y) || KeyOrder(y, x) { LeTotal(x.key, y.key); }
    forall x: Entry, y: Entry, z: Entry | KeyOrder(x, y) && KeyOrder(y, z) ensures KeyOrder(x, z) {
      LeTransitive(x.key, y.key, z.key);
    }
  }

  lemma DistinctKeys(b: seq<Entry>, items: seq<Entry>)
    requires multiset(b) == multiset(items)
    requires forall i, j :: 0 <= i < j < |items| ==> items[i].key != items[j].key
    ensures forall i, j :: 0 <= i < j < |b| ==> b[i].key != b[j].key
  {
    forall i, j | 0 <= i < j < |b| ensures b[i].key != b[j].key {
      Sorting.SameMembers(b, items, b[i]);
      Sorting.SameMembers(b, items, b[j]);
      if b[i] == b[j] {
        TwiceIn(b, i, j);
        OnceIn(items, b[i]);
      }
    }
  }

  lemma TwiceIn(b: seq<Entry>, i: nat, j: nat)
    requires i < j < |b| && b[i] == b[j]
    ensures multiset(b)[b[i]] >= 2
  {
    assert b == b[..i] + [b[i]] + b[i + 1..j] + [b[j]] + b[j + 1..];
  }

  lemma {:induction false} OnceIn(items: seq<Entry>, x: Entry)
    requires forall i, j :: 0 <= i < j < |items| ==> items[i].key != items[j].key
    ensures multiset(items)[x] <= 1
  {
    if items != [] {
      assert items == [items[0]] + items[1..];
      OnceIn(items[1..], x);
      if x == items[0] {
        assert x !in items[1..];
        assert multiset(items[1..])[x] == 0;
      }
    }
  }

  /** The text that is signed. */
  function SignedText(e: Envelope): string
    requires e.budget != []
  {
    DOMAIN + UnsignedPayload(e)
  }

  /** An accepted envelope under a genuine signature is the signed one, or exhibits a collision of the MAC. */
  lemma AcceptedIsUnaltered(cfg: Config, mac: Mac, table: Table, signed: Envelope, c: Call)
    requires Valid(signed) && Valid(c.envelope) && Authentic(cfg, mac, signed)
    requires c.envelope.signature == signed.signature && c.envelope.keyVersion == signed.keyVersion
    requires Consume(cfg, mac, table, c).1
    ensures var key, s, t := cfg.keys[signed.keyVersion], SignedText(c.envelope), SignedText(signed);
      c.envelope == signed || (s != t && mac(key, s) == mac(key, t))
  {
    if SignedText(c.envelope) == SignedText(signed) {
      DropPrefix(DOMAIN, UnsignedPayload(c.envelope), UnsignedPayload(signed));
      PayloadInjective(c.envelope, signed);
    }
  }

  // ----- The receipt table as it is updated -----

  class NonceStore {
    const cfg: Config
    const mac: Mac
    var receipts: Table

    constructor (cfg: Config, mac: Mac)
      ensures this.cfg == cfg && this.mac == mac && receipts == map[]
    {
      this.cfg, this.mac, receipts := cfg, mac, map[];
    }

    /** Deletes stale receipts and inserts the new one; a duplicate nonce rolls both back. */
    method VerifyAndConsume(e: Envelope, scope: Scope, now: int) returns (ok: bool)
      requires Valid(e)
      modifies this
      ensures (receipts, ok) == Consume(cfg, mac, old(receipts), Call(e, scope, now))
      ensures !ok ==> receipts == old(receipts)
    {
      var key := if e.keyVersion in cfg.keys then cfg.keys[e.keyVersion] else seq(32, _ => 0);
      var expected := Signature(mac, key, e);
      var authentic := e.keyVersion in cfg.keys && expected == e.signature;
      var fresh_ := now - cfg.maxAge <= e.issuedAt && e.issuedAt <= now + cfg.futureSkew;
      var scoped := e.ownerId == scope.ownerId && e.projectId == scope.projectId &&
                    e.parentRunId == scope.parentRunId && e.childRunId == scope.childRunId &&
                    e.contextHash == scope.contextHash;
      if !authentic || !fresh_ || !scoped {
        return false;
      }
      var saved := receipts;
      receipts := map n | n in receipts && !(receipts[n].issuedAt < now - cfg.maxAge - cfg.futureSkew) :: receipts[n];
      assert receipts == Purge(cfg, saved, now);
      if e.nonce in receipts {
        receipts := saved;
        return false;
      }
      receipts := receipts[e.nonce := ReceiptFor(e, now)];
      return true;
    }
  }
}
