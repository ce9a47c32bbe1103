/** src/audit/hash-chain.ts: the per-tenant hash-linked audit log and its verifier.

    The hash is a function parameter; where a result needs it to be collision-free it says so. */
module AuditChain {
  import opened Tables
  import opened Json
  import JsonLaws

  type Hash = JsString -> JsString

  ghost predicate Injective(h: Hash) {
    forall x, y :: h(x) == h(y) ==> x == y
  }

  // The chain only needs some hash of an event; the program's is Hasher(sha256Hex).
  type EventHasher = Event -> JsString

  ghost predicate InjectiveHasher(eh: EventHasher) {
    forall e, f :: eh(e) == eh(f) ==> e == f
  }

  // the hashed columns of audit_events
  datatype Event = Event(
    eventId: JsString, tenantId: JsString, aggregateType: JsString, aggregateId: JsString,
    aggregateVersion: int, eventType: JsString, beforeHash: Option<JsString>, afterHash: JsString,
    actorPrincipalId: JsString, actorRole: JsString, authMethod: JsString, requestId: JsString,
    traceId: Option<JsString>, sourceIpOrRuntime: Option<JsString>, occurredAt: JsString,
    previousEventHash: Option<JsString>)

  datatype Row = Row(event: Event, eventHash: JsString)

  datatype AppendInput = AppendInput(
    tenantId: JsString, aggregateType: JsString, aggregateId: JsString, aggregateVersion: int,
    eventType: JsString, beforeHash: Option<JsString>, afterHash: JsString,
    principalId: JsString, role: JsString, authMethod: JsString, requestId: JsString,
    traceId: Option<JsString>, sourceIpOrRuntime: Option<JsString>)

  // ---------------------------------------------------------------- the hashed object

  function Unit(c: char): CodeUnit {
    if c as int < 0x1_0000 then c as int else 0xfffd
  }

  function Text(s: string): (r: JsString)
    ensures |r| == |s|
    ensures forall i | 0 <= i < |s| && s[i] as int < 0x1_0000 :: r[i] == s[i] as int
  {
    seq(|s|, i requires 0 <= i < |s| => Unit(s[i]))
  }

  function DecimalDigits(n: nat): JsString {
    var digit: CodeUnit := 0x30 + n % 10;
    if n < 10 then [digit] else DecimalDigits(n / 10) + [digit]
  }

  function IntText(n: int): JsString {
    if n < 0 then [0x2d] + DecimalDigits(-n) else DecimalDigits(n)
  }

  const AUDIT_KEYS: seq<string> :=
    ["eventId", "tenantId", "aggregateType", "aggregateId", "aggregateVersion", "eventType", "beforeHash", "afterHash",
     "actorPrincipalId", "actorRole", "authMethod", "requestId", "traceId", "sourceIpOrRuntime", "occurredAt",
     "previousEventHash"]

  function OrNull(s: Option<JsString>): Value {
    match s
    case None => Null
    case Some(t) => Str(t)
  }

  function EventValues(e: Event): (r: seq<Value>)
    ensures |r| == |AUDIT_KEYS|
  {
    [Str(e.eventId), Str(e.tenantId), Str(e.aggregateType), Str(e.aggregateId), Num(IntText(e.aggregateVersion)),
     Str(e.eventType), OrNull(e.beforeHash), Str(e.afterHash), Str(e.actorPrincipalId), Str(e.actorRole),
     Str(e.authMethod), Str(e.requestId), OrNull(e.traceId), OrNull(e.sourceIpOrRuntime), Str(e.occurredAt),
     OrNull(e.previousEventHash)]
  }

  function EventObject(e: Event): Value {
    Obj(seq(|AUDIT_KEYS|, i requires 0 <= i < |AUDIT_KEYS| => Field(Text(AUDIT_KEYS[i]), EventValues(e)[i])))
  }

  function EventHash(h: Hash, e: Event): JsString {
    h(CanonicalJsonString(EventObject(e)).value)
  }

  function Hasher(h: Hash): EventHasher {
    (e: Event) => EventHash(h, e)
  }

  lemma {:induction false} DigitsReadBack(n: nat)
    ensures DecimalValue(DecimalDigits(n)) == n && IsNumberText(DecimalDigits(n)) && DecimalDigits(n)[0] != 0x2d
    ensures forall i | 0 <= i < |DecimalDigits(n)| :: 0x30 <= DecimalDigits(n)[i] <= 0x39
    ensures n > 0 ==> DecimalDigits(n)[0] != 0x30
    ensures n == 0 ==> DecimalDigits(n) == [0x30]
  {
    var text := DecimalDigits(n);
    if n >= 10 {
      DigitsReadBack(n / 10);
      assert text[..|text| - 1] == DecimalDigits(n / 10);
    } else {
      assert text[..|text| - 1] == [];
    }
  }

  // the decimal digits of the number without leading zeros, after a minus sign if it is negative
  lemma IntTextIsNumber(n: int)
    ensures IsNumberText(IntText(n))
    ensures var digits := if n < 0 then IntText(n)[1..] else IntText(n);
            && (n < 0 ==> IntText(n)[0] == 0x2d)
            && |digits| > 0 && (forall i | 0 <= i < |digits| :: 0x30 <= digits[i] <= 0x39)
            && (n != 0 ==> digits[0] != 0x30) && (n == 0 ==> digits == [0x30])
            && DecimalValue(digits) == if n < 0 then -n else n
  {
    DigitsReadBack(if n < 0 then -n else n);
  }

  lemma IntTextInjective(m: int, n: int)
    requires IntText(m) == IntText(n)
    ensures m == n
  {
    DigitsReadBack(if m < 0 then -m else m);
    DigitsReadBack(if n < 0 then -n else n);
    if m < 0 && n < 0 {
      assert IntText(m)[1..] == DecimalDigits(-m) && IntText(n)[1..] == DecimalDigits(-n);
    }
  }

  lemma TextDiffers(a: string, b: string, k: nat)
    requires k < |a| && k < |b| && a[k] <= 'z' && b[k] <= 'z' && a[k] != b[k]
    ensures Text(a) != Text(b)
  {
    assert Text(a)[k] == Unit(a[k]) && Text(b)[k] == Unit(b[k]);
  }

  lemma AuditKeysDistinct()
    ensures forall i, j | 0 <= i < j < |AUDIT_KEYS| :: Text(AUDIT_KEYS[i]) != Text(AUDIT_KEYS[j])
  {
    forall i, j | 0 <= i < j < |AUDIT_KEYS| ensures Text(AUDIT_KEYS[i]) != Text(AUDIT_KEYS[j]) {
      var a, b := AUDIT_KEYS[i], AUDIT_KEYS[j];
      if |a| == |b| {
        assert a[0] != b[0] || a[1] != b[1];
        TextDiffers(a, b, if a[0] != b[0] then 0 else 1);
      } else {
        assert |Text(a)| != |Text(b)|;
      }
    }
  }

  lemma AuditKeysOrdinary()
    ensures forall i | 0 <= i < |AUDIT_KEYS| :: Text(AUDIT_KEYS[i]) != PROTO_KEY
  {
    forall i | 0 <= i < |AUDIT_KEYS| ensures Text(AUDIT_KEYS[i]) != PROTO_KEY {
      assert Text(AUDIT_KEYS[i])[0] == Unit(AUDIT_KEYS[i][0]);
      assert 'a' <= AUDIT_KEYS[i][0];
    }
  }

  lemma EventValuesValid(e: Event)
    ensures forall i | 0 <= i < |AUDIT_KEYS| :: Valid(EventValues(e)[i]) && EventValues(e)[i] != Undefined
  {
    IntTextIsNumber(e.aggregateVersion);
    hide IntText;
  }

  lemma EventObjectValid(e: Event)
    ensures Valid(EventObject(e)) && DistinctKeys(EventObject(e).fields)
    ensures forall i | 0 <= i < |AUDIT_KEYS| :: Kept(EventObject(e).fields[i])
  {
    AuditKeysDistinct();
    AuditKeysOrdinary();
    EventValuesValid(e);
    hide EventValues, Text;
  }

  ghost predicate HasColumn(e: Event, name: string, value: Value) {
    EventObject(e).Obj? && Field(Text(name), value) in EventObject(e).fields
  }

  // a nullable column is the text or null
  ghost predicate HasNullable(e: Event, name: string, column: Option<JsString>) {
    HasColumn(e, name, if column.Some? then Str(column.value) else Null)
  }

  lemma ColumnAt(e: Event, i: nat)
    requires i < |AUDIT_KEYS|
    ensures HasColumn(e, AUDIT_KEYS[i], EventValues(e)[i])
  {
    assert EventObject(e).fields[i] == Field(Text(AUDIT_KEYS[i]), EventValues(e)[i]);
  }

  /** What is hashed: the canonical text of an object with the sixteen columns under their names and nothing else. */
  lemma HashedColumns(h: Hash, e: Event)
    ensures EventObject(e).Obj? && |EventObject(e).fields| == 16
    ensures HasColumn(e, "eventId", Str(e.eventId)) && HasColumn(e, "tenantId", Str(e.tenantId))
    ensures HasColumn(e, "aggregateType", Str(e.aggregateType)) && HasColumn(e, "aggregateId", Str(e.aggregateId))
    ensures HasColumn(e, "aggregateVersion", Num(IntText(e.aggregateVersion)))
    ensures HasColumn(e, "eventType", Str(e.eventType)) && HasNullable(e, "beforeHash", e.beforeHash)
    ensures HasColumn(e, "afterHash", Str(e.afterHash)) && HasColumn(e, "actorPrincipalId", Str(e.actorPrincipalId))
    ensures HasColumn(e, "actorRole", Str(e.actorRole)) && HasColumn(e, "authMethod", Str(e.authMethod))
    ensures HasColumn(e, "requestId", Str(e.requestId)) && HasNullable(e, "traceId", e.traceId)
    ensures HasNullable(e, "sourceIpOrRuntime", e.sourceIpOrRuntime) && HasColumn(e, "occurredAt", Str(e.occurredAt))
    ensures HasNullable(e, "previousEventHash", e.previousEventHash)
    ensures CanonicalJsonString(EventObject(e)) == Some(Print(Sorted(EventObject(e))))
    ensures Hasher(h)(e) == h(Print(Sorted(EventObject(e))))
  {
    forall i: nat | i < |AUDIT_KEYS| ensures HasColumn(e, AUDIT_KEYS[i], EventValues(e)[i]) {
      ColumnAt(e, i);
    }
    hide HasColumn, EventObject, Print, Sorted, IntText;
    assert HasColumn(e, AUDIT_KEYS[0], EventValues(e)[0]) && HasColumn(e, AUDIT_KEYS[1], EventValues(e)[1]);
    assert HasColumn(e, AUDIT_KEYS[2], EventValues(e)[2]) && HasColumn(e, AUDIT_KEYS[3], EventValues(e)[3]);
    assert HasColumn(e, AUDIT_KEYS[4], EventValues(e)[4]) && HasColumn(e, AUDIT_KEYS[5], EventValues(e)[5]);
    assert HasColumn(e, AUDIT_KEYS[6], EventValues(e)[6]) && HasColumn(e, AUDIT_KEYS[7], EventValues(e)[7]);
    assert HasColumn(e, AUDIT_KEYS[8], EventValues(e)[8]) && HasColumn(e, AUDIT_KEYS[9], EventValues(e)[9]);
    assert HasColumn(e, AUDIT_KEYS[10], EventValues(e)[10]) && HasColumn(e, AUDIT_KEYS[11], EventValues(e)[11]);
    assert HasColumn(e, AUDIT_KEYS[12], EventValues(e)[12]) && HasColumn(e, AUDIT_KEYS[13], EventValues(e)[13]);
    assert HasColumn(e, AUDIT_KEYS[14], EventValues(e)[14]) && HasColumn(e, AUDIT_KEYS[15], EventValues(e)[15]);
  }

  ghost predicate SameMeaningAt(e: Event, f: Event, i: nat) {
    i < |AUDIT_KEYS| && Denote(EventValues(e)[i]) == Denote(EventValues(f)[i])
  }

  lemma EventHeadEqual(e: Event, f: Event)
    requires forall i | 0 <= i < 8 :: SameMeaningAt(e, f, i)
    ensures e.eventId == f.eventId && e.tenantId == f.tenantId && e.aggregateType == f.aggregateType
    ensures e.aggregateId == f.aggregateId && e.aggregateVersion == f.aggregateVersion && e.eventType == f.eventType
    ensures e.beforeHash == f.beforeHash && e.afterHash == f.afterHash
  {
    assert SameMeaningAt(e, f, 0) && SameMeaningAt(e, f, 1) && SameMeaningAt(e, f, 2) && SameMeaningAt(e, f, 3);
    assert SameMeaningAt(e, f, 4) && SameMeaningAt(e, f, 5) && SameMeaningAt(e, f, 6) && SameMeaningAt(e, f, 7);
    hide SameMeaningAt, IntText;
    IntTextInjective(e.aggregateVersion, f.aggregateVersion);
  }

  lemma EventTailEqual(e: Event, f: Event)
    requires forall i | 8 <= i < |AUDIT_KEYS| :: SameMeaningAt(e, f, i)
    ensures e.actorPrincipalId == f.actorPrincipalId && e.actorRole == f.actorRole && e.authMethod == f.authMethod
    ensures e.requestId == f.requestId && e.traceId == f.traceId && e.sourceIpOrRuntime == f.sourceIpOrRuntime
    ensures e.occurredAt == f.occurredAt && e.previousEventHash == f.previousEventHash
  {
    assert SameMeaningAt(e, f, 8) && SameMeaningAt(e, f, 9) && SameMeaningAt(e, f, 10) && SameMeaningAt(e, f, 11);
    assert SameMeaningAt(e, f, 12) && SameMeaningAt(e, f, 13) && SameMeaningAt(e, f, 14) && SameMeaningAt(e, f, 15);
  }

  /** With a collision-free hash, equal event hashes mean equal events in every hashed column. */
  lemma EventHashInjective(h: Hash, e: Event, f: Event)
    requires Injective(h) && EventHash(h, e) == EventHash(h, f)
    ensures e == f
  {
    EventObjectValid(e);
    EventObjectValid(f);
    JsonLaws.CanonicalTextIffSameMeaning(EventObject(e), EventObject(f));
    forall i | 0 <= i < |AUDIT_KEYS| ensures SameMeaningAt(e, f, i) {
      JsonLaws.DenoteFieldsFind(EventObject(e).fields, i);
      JsonLaws.DenoteFieldsFind(EventObject(f).fields, i);
    }
    EventHeadEqual(e, f);
    EventTailEqual(e, f);
  }

  /** Hence the program's event hasher loses nothing whenever its text hash loses nothing. */
  lemma {:induction false} HasherInjective(h: Hash)
    requires Injective(h)
    ensures InjectiveHasher(Hasher(h))
  {
    forall e, f | Hasher(h)(e) == Hasher(h)(f) ensures e == f {
      EventHashInjective(h, e, f);
    }
  }

  // ---------------------------------------------------------------- the table and one append

  // the tenant's rows in chain order
  function TenantRows(rows: seq<Row>, tenant: JsString): seq<Row> {
    if rows == [] then []
    else
      var front, last := TenantRows(rows[..|rows| - 1], tenant), rows[|rows| - 1];
      if last.event.tenantId == tenant then front + [last] else front
  }

  lemma {:induction false} TenantRowsMembers(rows: seq<Row>, tenant: JsString)
    ensures forall row :: row in TenantRows(rows, tenant) <==> row in rows && row.event.tenantId == tenant
  {
    if rows != [] {
      TenantRowsMembers(rows[..|rows| - 1], tenant);
      assert rows == rows[..|rows| - 1] + [rows[|rows| - 1]];
    }
  }

  lemma TenantRowsSnoc(rows: seq<Row>, row: Row, tenant: JsString)
    ensures TenantRows(rows + [row], tenant)
         == if row.event.tenantId == tenant then TenantRows(rows, tenant) + [row] else TenantRows(rows, tenant)
  {
    assert (rows + [row])[..|rows|] == rows;
  }

  function LastHash(rows: seq<Row>): Option<JsString> {
    if rows == [] then None else Some(rows[|rows| - 1].eventHash)
  }

  function NewEvent(previous: Option<JsString>, input: AppendInput, eventId: JsString, occurredAt: JsString): Event {
    Event(eventId, input.tenantId, input.aggregateType, input.aggregateId, input.aggregateVersion, input.eventType,
          input.beforeHash, input.afterHash, input.principalId, input.role, input.authMethod, input.requestId,
          input.traceId, input.sourceIpOrRuntime, occurredAt, previous)
  }

  function NewRow(eh: EventHasher, previous: Option<JsString>, input: AppendInput, eventId: JsString,
                  occurredAt: JsString): Row {
    var event := NewEvent(previous, input, eventId, occurredAt);
    Row(event, eh(event))
  }

  // each column of the event is that column of the input, and its id and time are those given
  ghost predicate Carries(e: Event, input: AppendInput, eventId: JsString, occurredAt: JsString) {
    && e.eventId == eventId && e.occurredAt == occurredAt
    && e.tenantId == input.tenantId
    && e.aggregateType == input.aggregateType
    && e.aggregateId == input.aggregateId
    && e.aggregateVersion == input.aggregateVersion
    && e.eventType == input.eventType
    && e.beforeHash == input.beforeHash
    && e.afterHash == input.afterHash
    && e.actorPrincipalId == input.principalId
    && e.actorRole == input.role
    && e.authMethod == input.authMethod
    && e.requestId == input.requestId
    && e.traceId == input.traceId
    && e.sourceIpOrRuntime == input.sourceIpOrRuntime
  }

  // the hash of the tenant's last row, or none if it has no row
  ghost predicate IsLastHash(rows: seq<Row>, tenant: JsString, hash: Option<JsString>) {
    match hash
    case None => forall k | 0 <= k < |rows| :: rows[k].event.tenantId != tenant
    case Some(x) =>
      exists k :: && 0 <= k < |rows| && rows[k].event.tenantId == tenant && rows[k].eventHash == x
                  && forall l | k < l < |rows| :: rows[l].event.tenantId != tenant
  }

  lemma LastHashNext(rows: seq<Row>, row: Row, tenant: JsString, hash: Option<JsString>)
    requires IsLastHash(rows, tenant, hash)
    ensures IsLastHash(rows + [row], tenant, if row.event.tenantId == tenant then Some(row.eventHash) else hash)
  {
    var all := rows + [row];
    if row.event.tenantId == tenant {
      assert all[|rows|] == row;
    } else if hash.Some? {
      var k :| && 0 <= k < |rows| && rows[k].event.tenantId == tenant && rows[k].eventHash == hash.value
               && forall l | k < l < |rows| :: rows[l].event.tenantId != tenant;
      assert all[k] == rows[k];
    }
  }

  lemma {:induction false} LastOfTenant(rows: seq<Row>, tenant: JsString)
    ensures IsLastHash(rows, tenant, LastHash(TenantRows(rows, tenant)))
  {
    hide IsLastHash;
    if rows == [] {
      NoLastHash(tenant);
    } else {
      var front, last := rows[..|rows| - 1], rows[|rows| - 1];
      LastOfTenant(front, tenant);
      LastHashNext(front, last, tenant, LastHash(TenantRows(front, tenant)));
      assert rows == front + [last];
    }
  }

  lemma NoLastHash(tenant: JsString)
    ensures IsLastHash([], tenant, None)
  {
  }

  lemma OneLastHash(rows: seq<Row>, tenant: JsString, a: Option<JsString>, b: Option<JsString>)
    requires IsLastHash(rows, tenant, a) && IsLastHash(rows, tenant, b)
    ensures a == b
  {
  }

  // The table as one transaction sees it, rows in chain_sequence order.
  class AuditLog {
    var rows: seq<Row>

    constructor ()
      ensures rows == []
    {
      rows := [];
    }

    method AppendAuditEvent(eh: EventHasher, input: AppendInput, eventId: JsString, occurredAt: JsString)
      returns (id: JsString, eventHash: JsString)
      modifies this
      ensures rows == old(rows)
              + [NewRow(eh, LastHash(TenantRows(old(rows), input.tenantId)), input, eventId, occurredAt)]
      ensures |rows| == |old(rows)| + 1 && rows[..|old(rows)|] == old(rows)
      ensures var row := rows[|old(rows)|];
              && Carries(row.event, input, eventId, occurredAt)
              && IsLastHash(old(rows), input.tenantId, row.event.previousEventHash)
              && row.eventHash == eh(row.event)
              && id == eventId && eventHash == row.eventHash
    {
      LastOfTenant(rows, input.tenantId);
      var previous := LastHash(TenantRows(rows, input.tenantId));
      var event := NewEvent(previous, input, eventId, occurredAt);
      eventHash := eh(event);
      rows := rows + [Row(event, eventHash)];
      id := eventId;
    }

    method VerifyChain(eh: EventHasher, tenant: Option<JsString>) returns (problems: seq<Problem>)
      ensures problems == match tenant
                          case Some(t) => Problems(eh, TenantRows(rows, t))
                          case None => Problems(eh, ByTenant(rows))
    {
      match tenant {
        case Some(t) => problems := VerifyRows(eh, TenantRows(rows, t));
        case None => problems := VerifyRows(eh, ByTenant(rows));
      }
    }
  }

  // ---------------------------------------------------------------- verifyChain

  datatype Problem =
    | PreviousMismatch(eventId: JsString, expected: Option<JsString>, actual: Option<JsString>)
    | HashMismatch(eventId: JsString)

  function RowProblems(eh: EventHasher, expected: Option<JsString>, row: Row): seq<Problem> {
    (if row.event.previousEventHash != expected
     then [PreviousMismatch(row.event.eventId, expected, row.event.previousEventHash)]
     else [])
    + (if eh(row.event) != row.eventHash then [HashMismatch(row.event.eventId)] else [])
  }

  // Each row is judged against the last earlier row of its own tenant.
  function Problems(eh: EventHasher, rows: seq<Row>): seq<Problem> {
    if rows == [] then []
    else
      var front, last := rows[..|rows| - 1], rows[|rows| - 1];
      Problems(eh, front) + RowProblems(eh, LastHash(TenantRows(front, last.event.tenantId)), last)
  }

  lemma ProblemsSnoc(eh: EventHasher, rows: seq<Row>, row: Row)
    ensures Problems(eh, rows + [row])
         == Problems(eh, rows) + RowProblems(eh, LastHash(TenantRows(rows, row.event.tenantId)), row)
  {
    assert (rows + [row])[..|rows|] == rows;
  }

  // one of the two problems that row i can have: its link is not the hash of its tenant's last row before it, or its
  // hash does not recompute
  ghost predicate HasProblem(eh: EventHasher, rows: seq<Row>, i: nat, p: Problem)
    requires i < |rows|
  {
    var e := rows[i].event;
    match p
    case PreviousMismatch(id, expected, actual) =>
      id == e.eventId && actual == e.previousEventHash && actual != expected
        && IsLastHash(rows[..i], e.tenantId, expected)
    case HashMismatch(id) => id == e.eventId && rows[i].eventHash != eh(e)
  }

  ghost predicate HasProblems(eh: EventHasher, rows: seq<Row>, p: Problem) {
    exists i :: 0 <= i < |rows| && HasProblem(eh, rows, i, p)
  }

  lemma ProblemsNext(eh: EventHasher, rows: seq<Row>, row: Row, p: Problem)
    ensures HasProblems(eh, rows + [row], p)
       <==> HasProblems(eh, rows, p)
            || p in RowProblems(eh, LastHash(TenantRows(rows, row.event.tenantId)), row)
  {
    var all, n := rows + [row], |rows|;
    forall i | 0 <= i < n ensures HasProblem(eh, all, i, p) <==> HasProblem(eh, rows, i, p) {
      assert all[..i] == rows[..i] && all[i] == rows[i];
    }
    assert all[..n] == rows && all[n] == row;
    LastRowProblem(eh, rows, row, p);
    hide HasProblem, RowProblems;
  }

  lemma RowProblemIff(eh: EventHasher, expected: Option<JsString>, row: Row, p: Problem)
    ensures p in RowProblems(eh, expected, row)
       <==> (|| (p == PreviousMismatch(row.event.eventId, expected, row.event.previousEventHash)
                 && row.event.previousEventHash != expected)
             || (p == HashMismatch(row.event.eventId) && row.eventHash != eh(row.event)))
  {
  }

  lemma LastRowProblem(eh: EventHasher, rows: seq<Row>, row: Row, p: Problem)
    ensures HasProblem(eh, rows + [row], |rows|, p)
            <==> p in RowProblems(eh, LastHash(TenantRows(rows, row.event.tenantId)), row)
  {
    hide IsLastHash, TenantRows, LastHash, RowProblems;
    var expected := LastHash(TenantRows(rows, row.event.tenantId));
    assert (rows + [row])[..|rows|] == rows && (rows + [row])[|rows|] == row;
    LastOfTenant(rows, row.event.tenantId);
    RowProblemIff(eh, expected, row, p);
    if p.PreviousMismatch? && IsLastHash(rows, row.event.tenantId, p.expected) {
      OneLastHash(rows, row.event.tenantId, expected, p.expected);
    }
  }

  /** The problems reported are those of each row, row by row. */
  lemma {:induction false} ReportedIff(eh: EventHasher, rows: seq<Row>, p: Problem)
    ensures p in Problems(eh, rows) <==> HasProblems(eh, rows, p)
  {
    hide HasProblem, RowProblems, TenantRows;
    if rows != [] {
      var front, last := rows[..|rows| - 1], rows[|rows| - 1];
      ReportedIff(eh, front, p);
      ProblemsNext(eh, front, last, p);
      assert rows == front + [last];
    }
  }

  function Expected(expected: map<JsString, JsString>, row: Row): Option<JsString> {
    var t := row.event.tenantId;
    if t in expected then Some(expected[t]) else None
  }

  // what the per-tenant map holds after the rows seen so far
  ghost predicate Tracks(expected: map<JsString, JsString>, rows: seq<Row>) {
    forall t :: LastHash(TenantRows(rows, t)) == if t in expected then Some(expected[t]) else None
  }

  lemma TracksNext(expected: map<JsString, JsString>, rows: seq<Row>, row: Row)
    requires Tracks(expected, rows)
    ensures Tracks(expected[row.event.tenantId := row.eventHash], rows + [row])
  {
    forall t ensures LastHash(TenantRows(rows + [row], t))
                  == var m := expected[row.event.tenantId := row.eventHash]; if t in m then Some(m[t]) else None
    {
      TenantRowsSnoc(rows, row, t);
    }
  }

  lemma NextSeen(eh: EventHasher, expected: map<JsString, JsString>, rows: seq<Row>, i: nat)
    requires i < |rows| && Tracks(expected, rows[..i])
    ensures Tracks(expected[rows[i].event.tenantId := rows[i].eventHash], rows[..i + 1])
    ensures Problems(eh, rows[..i + 1])
            == Problems(eh, rows[..i]) + RowProblems(eh, Expected(expected, rows[i]), rows[i])
  {
    assert rows[..i + 1] == rows[..i] + [rows[i]];
    ProblemsSnoc(eh, rows[..i], rows[i]);
    TracksNext(expected, rows[..i], rows[i]);
  }

  /** The verifying loop with its per-tenant map of expected hashes. */
  method VerifyRows(eh: EventHasher, rows: seq<Row>) returns (problems: seq<Problem>)
    ensures problems == Problems(eh, rows)
    ensures forall p :: p in problems <==> HasProblems(eh, rows, p)
  {
    problems := [];
    var expectedPrevious: map<JsString, JsString> := map[];
    for i := 0 to |rows|
      invariant problems == Problems(eh, rows[..i])
      invariant Tracks(expectedPrevious, rows[..i])
    {
      var row := rows[i];
      var tenant := row.event.tenantId;
      var previousForTenant := Expected(expectedPrevious, row);
      ghost var found := problems;
      NextSeen(eh, expectedPrevious, rows, i);
      if row.event.previousEventHash != previousForTenant {
        problems := problems + [PreviousMismatch(row.event.eventId, previousForTenant, row.event.previousEventHash)];
      }
      if eh(row.event) != row.eventHash {
        problems := problems + [HashMismatch(row.event.eventId)];
      }
      assert problems == found + RowProblems(eh, previousForTenant, row);
      expectedPrevious := expectedPrevious[tenant := row.eventHash];
    }
    assert rows[..|rows|] == rows;
    forall p ensures p in problems <==> HasProblems(eh, rows, p) {
      ReportedIff(eh, rows, p);
    }
  }

  // ORDER BY tenant_id, chain_sequence: a stable sort on the tenant
  function InsertByTenant(row: Row, sorted: seq<Row>): seq<Row> {
    if sorted == [] || !LexLess(sorted[0].event.tenantId, row.event.tenantId) then [row] + sorted
    else [sorted[0]] + InsertByTenant(row, sorted[1..])
  }

  function ByTenant(rows: seq<Row>): seq<Row> {
    if rows == [] then [] else InsertByTenant(rows[0], ByTenant(rows[1..]))
  }

  // in the order of the tenants' code units
  ghost predicate OrderedByTenant(rows: seq<Row>) {
    forall i, j | 0 <= i < j < |rows| :: !ComesFirst(rows[j].event.tenantId, rows[i].event.tenantId)
  }

  lemma {:induction false} InsertedInOrder(row: Row, sorted: seq<Row>)
    requires OrderedByTenant(sorted)
    ensures OrderedByTenant(InsertByTenant(row, sorted))
    ensures forall r | r in InsertByTenant(row, sorted) :: r == row || r in sorted
  {
    if sorted != [] {
      var t, u := sorted[0].event.tenantId, row.event.tenantId;
      if LexLess(t, u) {
        var tail := InsertByTenant(row, sorted[1..]);
        InsertedInOrder(row, sorted[1..]);
        LexTotal(t, u);
        LexLessByPosition(u, t);
        forall j | 0 <= j < |tail| ensures !ComesFirst(tail[j].event.tenantId, t) {
          assert tail[j] in tail;
        }
      } else {
        forall j | 0 <= j < |sorted| ensures !ComesFirst(sorted[j].event.tenantId, u) {
          var w := sorted[j].event.tenantId;
          LexLessByPosition(w, u);
          LexLessByPosition(w, t);
          LexTotal(t, w);
          if LexLess(w, u) && t != w {
            LexTransitive(t, w, u);
          }
        }
      }
    }
  }

  /** The rows of all tenants come tenant by tenant. */
  lemma {:induction false} ByTenantInOrder(rows: seq<Row>)
    ensures OrderedByTenant(ByTenant(rows))
  {
    if rows != [] {
      ByTenantInOrder(rows[1..]);
      InsertedInOrder(rows[0], ByTenant(rows[1..]));
    }
  }

  // ---------------------------------------------------------------- tenants do not disturb each other

  function OneIf(row: Row, t: JsString): seq<Row> {
    if row.event.tenantId == t then [row] else []
  }

  lemma {:induction false} TenantRowsFront(row: Row, rows: seq<Row>, t: JsString)
    ensures TenantRows([row] + rows, t) == OneIf(row, t) + TenantRows(rows, t)
  {
    if rows == [] {
      assert ([row] + rows)[..0] == [];
    } else {
      assert ([row] + rows)[..|rows|] == [row] + rows[..|rows| - 1];
      TenantRowsFront(row, rows[..|rows| - 1], t);
    }
  }

  lemma TenantRowsSwap(a: Row, b: Row, rows: seq<Row>, t: JsString)
    requires a.event.tenantId != b.event.tenantId
    ensures OneIf(a, t) + (OneIf(b, t) + TenantRows(rows, t)) == TenantRows([b] + ([a] + rows), t)
  {
    TenantRowsFront(a, rows, t);
    TenantRowsFront(b, [a] + rows, t);
    assert OneIf(a, t) == [] || OneIf(b, t) == [];
  }

  lemma {:induction false} InsertByTenantRows(row: Row, sorted: seq<Row>, t: JsString)
    ensures TenantRows(InsertByTenant(row, sorted), t) == TenantRows([row] + sorted, t)
  {
    if sorted != [] && LexLess(sorted[0].event.tenantId, row.event.tenantId) {
      var first, rest := sorted[0], sorted[1..];
      LexTotal(row.event.tenantId, row.event.tenantId);
      InsertByTenantRows(row, rest, t);
      TenantRowsFront(first, InsertByTenant(row, rest), t);
      TenantRowsFront(row, rest, t);
      TenantRowsSwap(first, row, rest, t);
      assert sorted == [first] + rest;
    }
  }

  lemma {:induction false} ByTenantKeepsTenantRows(rows: seq<Row>, t: JsString)
    ensures TenantRows(ByTenant(rows), t) == TenantRows(rows, t)
  {
    if rows != [] {
      ByTenantKeepsTenantRows(rows[1..], t);
      InsertByTenantRows(rows[0], ByTenant(rows[1..]), t);
      TenantRowsFront(rows[0], ByTenant(rows[1..]), t);
      TenantRowsFront(rows[0], rows[1..], t);
      assert rows == [rows[0]] + rows[1..];
    }
  }

  ghost predicate DistinctIds(rows: seq<Row>) {
    forall i, j | 0 <= i < j < |rows| :: rows[i].event.eventId != rows[j].event.eventId
  }

  ghost function Ids(rows: seq<Row>): set<JsString> {
    set i | 0 <= i < |rows| :: rows[i].event.eventId
  }

  function ProblemsOn(problems: seq<Problem>, ids: set<JsString>): seq<Problem> {
    if problems == [] then []
    else
      var last := problems[|problems| - 1];
      ProblemsOn(problems[..|problems| - 1], ids) + (if last.eventId in ids then [last] else [])
  }

  lemma {:induction false} ProblemsOnConcat(a: seq<Problem>, b: seq<Problem>, ids: set<JsString>)
    ensures ProblemsOn(a + b, ids) == ProblemsOn(a, ids) + ProblemsOn(b, ids)
  {
    if b == [] {
      assert a + b == a;
    } else {
      ProblemsOnConcat(a, b[..|b| - 1], ids);
      assert (a + b)[..|a + b| - 1] == a + b[..|b| - 1];
    }
  }

  lemma RowProblemsOn(eh: EventHasher, expected: Option<JsString>, row: Row, ids: set<JsString>)
    ensures ProblemsOn(RowProblems(eh, expected, row), ids)
         == if row.event.eventId in ids then RowProblems(eh, expected, row) else []
  {
    var all := RowProblems(eh, expected, row);
    if |all| == 2 {
      assert all[..1] == [all[0]];
      assert [all[0]][..0] == [];
      assert ProblemsOn([all[0]], ids) == if row.event.eventId in ids then [all[0]] else [];
    }
  }

  lemma {:induction false} TenantRowsIdempotent(rows: seq<Row>, t: JsString)
    requires forall i | 0 <= i < |rows| :: rows[i].event.tenantId == t
    ensures TenantRows(rows, t) == rows
  {
    if rows != [] {
      TenantRowsIdempotent(rows[..|rows| - 1], t);
    }
  }

  lemma TenantRowsOf(rows: seq<Row>, t: JsString)
    ensures OfTenant(TenantRows(rows, t), t)
  {
    TenantRowsMembers(rows, t);
    forall i | 0 <= i < |TenantRows(rows, t)| ensures TenantRows(rows, t)[i].event.tenantId == t {
      assert TenantRows(rows, t)[i] in TenantRows(rows, t);
    }
  }

  lemma IsolationStep(eh: EventHasher, front: seq<Row>, last: Row, t: JsString, ids: set<JsString>)
    requires OfTenant(TenantRows(front, t), t)
    requires last.event.eventId in ids <==> last.event.tenantId == t
    requires ProblemsOn(Problems(eh, front), ids) == Problems(eh, TenantRows(front, t))
    ensures ProblemsOn(Problems(eh, front + [last]), ids) == Problems(eh, TenantRows(front + [last], t))
  {
    var expected := LastHash(TenantRows(front, last.event.tenantId));
    ProblemsSnoc(eh, front, last);
    TenantRowsSnoc(front, last, t);
    ProblemsOnConcat(Problems(eh, front), RowProblems(eh, expected, last), ids);
    RowProblemsOn(eh, expected, last, ids);
    if last.event.tenantId == t {
      TenantRowsIdempotent(TenantRows(front, t), t);
      ProblemsSnoc(eh, TenantRows(front, t), last);
    }
  }

  lemma NothingToReport(eh: EventHasher, t: JsString, ids: set<JsString>)
    ensures ProblemsOn(Problems(eh, []), ids) == Problems(eh, TenantRows([], t))
  {
  }

  /** On rows of many tenants in any interleaving, the problems reported on one tenant's rows
      are the problems of that tenant's rows alone. */
  lemma {:induction false} TenantIsolation(eh: EventHasher, rows: seq<Row>, t: JsString, ids: set<JsString>)
    requires forall i | 0 <= i < |rows| :: rows[i].event.eventId in ids <==> rows[i].event.tenantId == t
    ensures ProblemsOn(Problems(eh, rows), ids) == Problems(eh, TenantRows(rows, t))
  {
    hide Problems, ProblemsOn, TenantRows;
    if rows == [] {
      NothingToReport(eh, t, ids);
    } else {
      var front := rows[..|rows| - 1];
      TenantIsolation(eh, front, t, ids);
      TenantRowsOf(front, t);
      IsolationStep(eh, front, rows[|rows| - 1], t, ids);
      assert rows == front + [rows[|rows| - 1]];
    }
  }

  /** The same for event ids that are unique, as the table's primary key makes them. */
  lemma {:induction false} TenantIsolationByIds(eh: EventHasher, rows: seq<Row>, t: JsString)
    requires DistinctIds(rows)
    ensures ProblemsOn(Problems(eh, rows), Ids(TenantRows(rows, t))) == Problems(eh, TenantRows(rows, t))
  {
    var mine := TenantRows(rows, t);
    TenantRowsMembers(rows, t);
    forall i | 0 <= i < |rows| ensures rows[i].event.eventId in Ids(mine) <==> rows[i].event.tenantId == t {
      if rows[i].event.tenantId == t {
        assert rows[i] in mine;
      }
      if rows[i].event.eventId in Ids(mine) {
        var k :| 0 <= k < |mine| && mine[k].event.eventId == rows[i].event.eventId;
        assert mine[k] in rows;
        var j :| 0 <= j < |rows| && rows[j] == mine[k];
        assert j == i;
      }
    }
    TenantIsolation(eh, rows, t, Ids(mine));
  }

  /** Checking all tenants at once finds, for each tenant, what checking that tenant finds. */
  lemma AllTenantsRun(eh: EventHasher, rows: seq<Row>, t: JsString, ids: set<JsString>)
    requires forall i | 0 <= i < |rows| :: rows[i].event.eventId in ids <==> rows[i].event.tenantId == t
    ensures ProblemsOn(Problems(eh, ByTenant(rows)), ids) == Problems(eh, TenantRows(rows, t))
  {
    ByTenantKeepsTenantRows(rows, t);
    ByTenantRowsOf(rows);
    forall i | 0 <= i < |ByTenant(rows)|
      ensures ByTenant(rows)[i].event.eventId in ids <==> ByTenant(rows)[i].event.tenantId == t
    {
      assert ByTenant(rows)[i] in rows;
    }
    TenantIsolation(eh, ByTenant(rows), t, ids);
  }

  lemma ByTenantRowsOf(rows: seq<Row>)
    ensures forall row :: row in ByTenant(rows) <==> row in rows
  {
    forall row ensures row in ByTenant(rows) <==> row in rows {
      ByTenantKeepsTenantRows(rows, row.event.tenantId);
      TenantRowsMembers(rows, row.event.tenantId);
      TenantRowsMembers(ByTenant(rows), row.event.tenantId);
    }
  }

  // ---------------------------------------------------------------- chains

  ghost predicate OfTenant(rows: seq<Row>, t: JsString) {
    forall i | 0 <= i < |rows| :: rows[i].event.tenantId == t
  }

  // every row carries its own hash and its predecessor's
  ghost predicate Linked(eh: EventHasher, rows: seq<Row>) {
    rows == [] ||
    var front, last := rows[..|rows| - 1], rows[|rows| - 1];
    Linked(eh, front) && last.eventHash == eh(last.event) && last.event.previousEventHash == LastHash(front)
  }

  lemma {:induction false} VerifiesIffLinked(eh: EventHasher, rows: seq<Row>, t: JsString)
    requires OfTenant(rows, t)
    ensures Problems(eh, rows) == [] <==> Linked(eh, rows)
  {
    if rows != [] {
      var front := rows[..|rows| - 1];
      VerifiesIffLinked(eh, front, t);
      TenantRowsIdempotent(front, t);
    }
  }

  lemma AppendLinks(eh: EventHasher, rows: seq<Row>, row: Row)
    requires Linked(eh, rows) && row.eventHash == eh(row.event) && row.event.previousEventHash == LastHash(rows)
    ensures Linked(eh, rows + [row])
  {
    assert (rows + [row])[..|rows|] == rows;
  }

  lemma {:induction false} LinkedPrefix(eh: EventHasher, rows: seq<Row>, n: nat)
    requires Linked(eh, rows) && n <= |rows|
    ensures Linked(eh, rows[..n])
  {
    if n < |rows| {
      LinkedPrefix(eh, rows[..|rows| - 1], n);
      assert rows[..|rows| - 1][..n] == rows[..n];
    } else {
      assert rows[..n] == rows;
    }
  }

  lemma LinkedAt(eh: EventHasher, rows: seq<Row>, i: nat)
    requires Linked(eh, rows) && i < |rows|
    ensures rows[i].eventHash == eh(rows[i].event)
    ensures rows[i].event.previousEventHash == if i == 0 then None else Some(rows[i - 1].eventHash)
  {
    LinkedPrefix(eh, rows, i + 1);
    assert rows[..i + 1][..i] == rows[..i];
  }

  lemma SameRow(eh: EventHasher, a: Row, b: Row)
    requires InjectiveHasher(eh) && a.eventHash == eh(a.event) && b.eventHash == eh(b.event)
    requires Some(a.eventHash) == Some(b.eventHash)
    ensures a == b
  {
    assert a.event == b.event;
  }

  lemma {:induction false} SameHeadSameChain(eh: EventHasher, a: seq<Row>, b: seq<Row>)
    requires InjectiveHasher(eh) && Linked(eh, a) && Linked(eh, b) && LastHash(a) == LastHash(b)
    ensures a == b
  {
    if a != [] && b != [] {
      var m, n := |a| - 1, |b| - 1;
      SameRow(eh, a[m], b[n]);
      SameHeadSameChain(eh, a[..m], b[..n]);
      assert a == a[..m] + [a[m]] && b == b[..n] + [b[n]];
    }
  }

  /** The last event hash commits to the whole log: two verified single-tenant logs that end in
      the same event hash are equal row by row. */
  lemma {:induction false} SameHeadSameLog(eh: EventHasher, a: seq<Row>, b: seq<Row>, t: JsString, u: JsString)
    requires InjectiveHasher(eh) && OfTenant(a, t) && OfTenant(b, u)
    requires Problems(eh, a) == [] && Problems(eh, b) == [] && LastHash(a) == LastHash(b)
    ensures a == b
  {
    VerifiesIffLinked(eh, a, t);
    VerifiesIffLinked(eh, b, u);
    SameHeadSameChain(eh, a, b);
  }

  // rows taken from a log by position, in any order and with repeats
  function Pick(rows: seq<Row>, positions: seq<nat>): (r: seq<Row>)
    requires forall k | 0 <= k < |positions| :: positions[k] < |rows|
    ensures |r| == |positions|
    ensures forall k | 0 <= k < |positions| :: r[k] == rows[positions[k]]
  {
    seq(|positions|, k requires 0 <= k < |positions| => rows[positions[k]])
  }

  // one row of a chain has the hash that another names as its predecessor
  lemma SuccessorAt(eh: EventHasher, chain: seq<Row>, i: nat, j: nat)
    requires InjectiveHasher(eh) && Linked(eh, chain) && DistinctIds(chain) && i < |chain| && j < |chain|
    requires chain[i].event.previousEventHash == Some(chain[j].eventHash)
    ensures i == j + 1
  {
    hide Linked;
    LinkedAt(eh, chain, i);
    if i > 0 {
      LinkedAt(eh, chain, i - 1);
      LinkedAt(eh, chain, j);
      SameRow(eh, chain[i - 1], chain[j]);
      assert chain[i - 1].event.eventId == chain[j].event.eventId;
    }
  }

  lemma {:induction false} LinkedPicksInOrder(eh: EventHasher, chain: seq<Row>, positions: seq<nat>, k: nat)
    requires InjectiveHasher(eh) && Linked(eh, chain) && DistinctIds(chain)
    requires forall k | 0 <= k < |positions| :: positions[k] < |chain|
    requires Linked(eh, Pick(chain, positions)) && k < |positions|
    ensures positions[k] == k
  {
    var picked := Pick(chain, positions);
    LinkedAt(eh, picked, k);
    if k == 0 {
      LinkedAt(eh, chain, positions[0]);
    } else {
      LinkedPicksInOrder(eh, chain, positions, k - 1);
      SuccessorAt(eh, chain, positions[k], positions[k - 1]);
    }
  }

  ghost predicate InOrder(positions: seq<nat>) {
    forall k | 0 <= k < |positions| :: positions[k] == k
  }

  lemma OrderedPicksAreLinked(eh: EventHasher, chain: seq<Row>, positions: seq<nat>)
    requires Linked(eh, chain) && InOrder(positions)
    requires forall k | 0 <= k < |positions| :: positions[k] < |chain|
    ensures Linked(eh, Pick(chain, positions))
  {
    var n := |positions|;
    if n > 0 {
      assert positions[n - 1] == n - 1;
    }
    LinkedPrefix(eh, chain, n);
    assert Pick(chain, positions) == chain[..n];
  }

  /** Rows taken from a genuine chain, in any order and number, still verify exactly when they are
      its first rows in order: deleting, repeating or reordering anything but a tail is reported. */
  lemma {:induction false} SurvivesOnlyAsPrefix(eh: EventHasher, chain: seq<Row>, t: JsString, positions: seq<nat>)
    requires InjectiveHasher(eh) && OfTenant(chain, t) && DistinctIds(chain) && Problems(eh, chain) == []
    requires forall k | 0 <= k < |positions| :: positions[k] < |chain|
    ensures Problems(eh, Pick(chain, positions)) == [] <==> InOrder(positions)
  {
    VerifiesIffLinked(eh, chain, t);
    VerifiesIffLinked(eh, Pick(chain, positions), t);
    if Linked(eh, Pick(chain, positions)) {
      forall k | 0 <= k < |positions| ensures positions[k] == k {
        LinkedPicksInOrder(eh, chain, positions, k);
      }
    } else if InOrder(positions) {
      OrderedPicksAreLinked(eh, chain, positions);
    }
  }
}
