/** Runs of the document services. A transaction selects a document without locking it, checks what it found and
    writes columns of the row as it is by then; approveDocument reads, voids and decides in statements of its own
    and locks the request while it decides. Any number of calls stop between these steps, on one document too, and
    each may crash anywhere. */
module DocumentRuns {
  import opened Tables
  import opened Rules
  import opened Documents

  type CallId = nat

  datatype Phase =
    | Entered
    | Fetched(approval: Approval) // read as undecided
    | MustExpire // past its expiry
    | Loaded(approval: Approval)
    | MustVoid // the document's digest is not the requested one
    | Checked(approval: Approval)
    | Selected(approval: Approval, found: Document) // the request is locked and undecided
    | Resolved(approval: Approval, found: Document, subject: Option<bool>)
    | Passed(approval: Approval, found: Document, subject: Option<bool>, facts: seq<Fact>) // the gate was open

  // a call between two of its steps, with what it has read
  datatype Call =
    | Approving(approvalId: Id, approve: bool, phase: Phase)
    | Changing(op: Operation, documentId: Id, found: Document, selectedAt: int)

  // history: a committed decision transaction, the index of its audit event, and the subject and facts its gate saw
  datatype Decided = Decided(approvalId: Id, approve: bool, auditIndex: nat, subject: Option<bool>, facts: seq<Fact>)

  datatype State = State(db: Db, now: int, calls: map<CallId, Call>, decisions: seq<Decided>)

  // `at` is what a call takes for the present, some time after its select
  datatype Step =
    | DraftStep(input: DraftInput, id: Id, logicalId: Id)
    | SelectStep(call: CallId, op: Operation, documentId: Id)
    | RequestStep(call: CallId, approvalId: Id, at: int)
    | AttachStep(call: CallId, digest: Digest)
    | DeliveryStep(call: CallId)
    | SupersedeStep(call: CallId, digest: Digest, newId: Id)
    | StartCall(call: CallId, approvalId: Id, approve: bool)
    | ReadApproval(call: CallId)
    | CheckExpiry(call: CallId)
    | WriteExpired(call: CallId)
    | ReadDocument(call: CallId)
    | WriteMismatch(call: CallId)
    | SelectToDecide(call: CallId)
    | ReadSubject(call: CallId)
    | PassGate(call: CallId)
    | DecideStep(call: CallId)
    | Crash(call: CallId)
    | FactsChange(facts: seq<Fact>, subjects: map<(Name, Name), bool>)
    | Tick(now: int)

  // FOR UPDATE on the row of a request, held until the transaction ends
  predicate HoldsLock(c: Call, approvalId: Id) {
    c.Approving? && c.approvalId == approvalId && (c.phase.Selected? || c.phase.Resolved? || c.phase.Passed?)
  }

  predicate LockFree(s: State, approvalId: Id) {
    forall c | c in s.calls :: !HoldsLock(s.calls[c], approvalId)
  }

  predicate Approves(s: State, call: CallId) {
    call in s.calls && s.calls[call].Approving?
  }

  // a call whose checks have passed on the row it selected
  predicate MayWrite(s: State, call: CallId, op: Operation) {
    call in s.calls && s.calls[call].Changing? && s.calls[call].op == op && Refusal(s.calls[call].found, op).None?
  }

  // The ids a step draws at random are new. A call whose checks fail goes no further, which is a crash here.
  predicate Enabled(s: State, step: Step, mapping: Mapping) {
    match step
    case DraftStep(_, id, _) => id !in s.db.documents
    case SelectStep(call, op, documentId) =>
      call !in s.calls && documentId in s.db.documents && op != ToDeliver(NotSent)
    case RequestStep(call, approvalId, at) =>
      MayWrite(s, call, ToRequest) && approvalId !in s.db.approvals && s.calls[call].selectedAt <= at <= s.now
    case AttachStep(call, _) => MayWrite(s, call, ToAttach)
    case DeliveryStep(call) =>
      call in s.calls && s.calls[call].Changing? && s.calls[call].op.ToDeliver? && MayWrite(s, call, s.calls[call].op)
    case SupersedeStep(call, _, newId) => MayWrite(s, call, ToSupersede) && newId !in s.db.documents
    case StartCall(call, _, _) => call !in s.calls
    case ReadApproval(call) => Approves(s, call) && s.calls[call].phase.Entered?
    case CheckExpiry(call) => Approves(s, call) && s.calls[call].phase.Fetched?
    case WriteExpired(call) =>
      Approves(s, call) && s.calls[call].phase.MustExpire? && LockFree(s, s.calls[call].approvalId)
    case ReadDocument(call) => Approves(s, call) && s.calls[call].phase.Loaded?
    case WriteMismatch(call) =>
      Approves(s, call) && s.calls[call].phase.MustVoid? && LockFree(s, s.calls[call].approvalId)
    case SelectToDecide(call) =>
      Approves(s, call) && s.calls[call].phase.Checked? && LockFree(s, s.calls[call].approvalId)
    case ReadSubject(call) => Approves(s, call) && s.calls[call].phase.Selected?
    case PassGate(call) =>
      Approves(s, call) && s.calls[call].phase.Resolved?
      && (s.calls[call].approve ==> GateOpens(s.calls[call].phase.subject, s.db.facts, s.calls[call].phase.approval))
    case DecideStep(call) =>
      Approves(s, call) && s.calls[call].phase.Passed?
      && ContentAllowed(s.calls[call].phase.found.content, Target(s.calls[call].approve))
    case Crash(call) => call in s.calls
    case FactsChange(_, _) => true
    case Tick(now) => s.now <= now
  }

  function Drop(s: State, call: CallId): State {
    s.(calls := s.calls - {call})
  }

  function Advance(s: State, call: CallId, phase: Phase): State
    requires Approves(s, call)
  {
    s.(calls := s.calls[call := s.calls[call].(phase := phase)])
  }

  function AfterReadApproval(s: State, call: CallId): State
    requires Approves(s, call)
  {
    var id := s.calls[call].approvalId;
    if id !in s.db.approvals || s.db.approvals[id].decision.Some? then Drop(s, call)
    else Advance(s, call, Fetched(s.db.approvals[id]))
  }

  function AfterCheckExpiry(s: State, call: CallId): State
    requires Approves(s, call) && s.calls[call].phase.Fetched?
  {
    var approval := s.calls[call].phase.approval;
    Advance(s, call, if approval.expiresAt < s.now then MustExpire else Loaded(approval))
  }

  function AfterReadDocument(s: State, call: CallId): State
    requires Approves(s, call) && s.calls[call].phase.Loaded?
  {
    var approval := s.calls[call].phase.approval;
    if approval.documentId !in s.db.documents then Drop(s, call)
    else if s.db.documents[approval.documentId].generated != Some(approval.artifact) then Advance(s, call, MustVoid)
    else Advance(s, call, Checked(approval))
  }

  function AfterSelectToDecide(s: State, call: CallId): State
    requires Approves(s, call) && s.calls[call].phase.Checked?
  {
    var approval := s.calls[call].phase.approval;
    var id := s.calls[call].approvalId;
    if id in s.db.approvals && s.db.approvals[id].decision.Some? then Drop(s, call)
    else if approval.documentId !in s.db.documents then Drop(s, call)
    else Advance(s, call, Selected(approval, s.db.documents[approval.documentId]))
  }

  function AfterReadSubject(s: State, call: CallId, mapping: Mapping): State
    requires Approves(s, call) && s.calls[call].phase.Selected?
  {
    var approval, found := s.calls[call].phase.approval, s.calls[call].phase.found;
    Advance(s, call, Resolved(approval, found, SubjectRow(s.db, approval, found, mapping)))
  }

  function AfterPassGate(s: State, call: CallId): State
    requires Approves(s, call) && s.calls[call].phase.Resolved?
  {
    var phase := s.calls[call].phase;
    Advance(s, call, Passed(phase.approval, phase.found, phase.subject, s.db.facts))
  }

  function AfterDecide(s: State, call: CallId): State
    requires Approves(s, call) && s.calls[call].phase.Passed?
  {
    var c := s.calls[call];
    var db := WriteDecision(s.db, c.approvalId, c.phase.approval, c.phase.found, c.approve);
    var decided := Decided(c.approvalId, c.approve, |s.db.audit|, c.phase.subject, c.phase.facts);
    Drop(s.(db := db, decisions := s.decisions + [decided]), call)
  }

  // the tables after the write of a transaction that changes one document
  function Written(s: State, step: Step, mapping: Mapping): Db
    requires Enabled(s, step, mapping)
    requires step.RequestStep? || step.AttachStep? || step.DeliveryStep? || step.SupersedeStep?
  {
    var c := s.calls[step.call];
    match step
    case RequestStep(_, approvalId, at) => WriteRequest(s.db, c.documentId, c.found, approvalId, at)
    case AttachStep(_, digest) => WriteExecuted(s.db, c.documentId, c.found, digest)
    case DeliveryStep(_) => WriteDelivery(s.db, c.documentId, c.found, c.op.status)
    case SupersedeStep(_, digest, newId) => WriteSuperseded(s.db, c.documentId, c.found, digest, newId)
  }

  function Next(s: State, step: Step, mapping: Mapping): State
    requires Enabled(s, step, mapping)
  {
    match step
    case DraftStep(input, id, logicalId) => s.(db := CommitDraft(s.db, input, id, logicalId))
    case SelectStep(call, op, documentId) =>
      s.(calls := s.calls[call := Changing(op, documentId, s.db.documents[documentId], s.now)])
    case RequestStep(call, _, _) => Drop(s.(db := Written(s, step, mapping)), call)
    case AttachStep(call, _) => Drop(s.(db := Written(s, step, mapping)), call)
    case DeliveryStep(call) => Drop(s.(db := Written(s, step, mapping)), call)
    case SupersedeStep(call, _, _) => Drop(s.(db := Written(s, step, mapping)), call)
    case StartCall(call, approvalId, approve) => s.(calls := s.calls[call := Approving(approvalId, approve, Entered)])
    case ReadApproval(call) => AfterReadApproval(s, call)
    case CheckExpiry(call) => AfterCheckExpiry(s, call)
    case WriteExpired(call) => Drop(s.(db := WriteVoid(s.db, s.calls[call].approvalId, Expired)), call)
    case ReadDocument(call) => AfterReadDocument(s, call)
    case WriteMismatch(call) => Drop(s.(db := WriteVoid(s.db, s.calls[call].approvalId, DecidedRejected)), call)
    case SelectToDecide(call) => AfterSelectToDecide(s, call)
    case ReadSubject(call) => AfterReadSubject(s, call, mapping)
    case PassGate(call) => AfterPassGate(s, call)
    case DecideStep(call) => AfterDecide(s, call)
    case Crash(call) => Drop(s, call)
    case FactsChange(facts, subjects) => s.(db := s.db.(facts := facts, subjects := subjects))
    case Tick(now) => s.(now := now)
  }

  ghost predicate IsPath(states: seq<State>, steps: seq<Step>, mapping: Mapping) {
    && |states| == |steps| + 1
    && forall i | 0 <= i < |steps| ::
      Enabled(states[i], steps[i], mapping) && states[i + 1] == Next(states[i], steps[i], mapping)
  }

  ghost predicate Initial(s: State) {
    s.db.documents == map[] && s.db.approvals == map[] && s.db.audit == [] && s.calls == map[] && s.decisions == []
  }

  ghost predicate IsRun(states: seq<State>, steps: seq<Step>, mapping: Mapping) {
    IsPath(states, steps, mapping) && Initial(states[0])
  }

  // ---------------------------------------------------------------- replaying the audit log

  datatype View =
    | Missing
    | View(version: nat, content: ContentStatus, execution: ExecutionStatus, delivery: DeliveryStatus,
           generated: Option<Digest>, executed: Option<Digest>)

  // what an audit event says happened to its document
  function Apply(v: View, e: Event): View {
    if e.eventType == DraftGenerated then View(e.version, Draft, Unsigned, NotSent, e.after, None)
    else if v.Missing? then Missing
    else
      var w := v.(version := e.version);
      match e.eventType
      case ApprovalRequested => w.(content := UnderReview)
      case DocumentApproved => w.(content := Approved)
      case DocumentRejected => w.(content := Draft)
      case DocumentSuperseded => w.(content := Superseded)
      case ExecutedCopyAttached => w.(execution := Executed, executed := e.after)
      case DeliveryRecorded(status) => w.(delivery := status)
  }

  function Replay(audit: seq<Event>, id: Id): View {
    if audit == [] then Missing
    else
      var front, last := Replay(audit[..|audit| - 1], id), audit[|audit| - 1];
      if last.aggregateId == id then Apply(front, last) else front
  }

  function ViewOf(db: Db, id: Id): View {
    if id !in db.documents then Missing
    else
      var d := db.documents[id];
      View(d.version, d.content, d.execution, d.delivery, d.generated, d.executed)
  }

  ghost predicate Replayed(db: Db) {
    forall id :: Replay(db.audit, id) == ViewOf(db, id)
  }

  lemma ReplaySnoc(audit: seq<Event>, e: Event, id: Id)
    ensures Replay(audit + [e], id) == if e.aggregateId == id then Apply(Replay(audit, id), e) else Replay(audit, id)
  {
    assert (audit + [e])[..|audit|] == audit;
  }

  // one event and the change it announces
  lemma OneEventReplayed(db: Db, db': Db, e: Event)
    requires Replayed(db)
    requires db'.audit == db.audit + [e]
    requires e.aggregateId in db'.documents
    requires forall id | id != e.aggregateId :: ViewOf(db', id) == ViewOf(db, id)
    requires Apply(ViewOf(db, e.aggregateId), e) == ViewOf(db', e.aggregateId)
    ensures Replayed(db')
  {
    forall id ensures Replay(db'.audit, id) == ViewOf(db', id) {
      ReplaySnoc(db.audit, e, id);
    }
  }

  // ---------------------------------------------------------------- what holds of the tables

  ghost predicate HasEvent(audit: seq<Event>, n: nat, id: Id, eventType: EventType) {
    n <= |audit| && exists k :: 0 <= k < n && audit[k].aggregateId == id && audit[k].eventType == eventType
  }

  ghost predicate QueuedBefore(audit: seq<Event>, n: nat, id: Id) {
    HasEvent(audit, n, id, DeliveryRecorded(Queued))
  }

  ghost predicate SentBefore(audit: seq<Event>, n: nat, id: Id) {
    n <= |audit| && exists k :: 0 <= k < n && audit[k].aggregateId == id && audit[k].eventType == DeliveryRecorded(Sent)
                                && QueuedBefore(audit, k, id)
  }

  // a delivered event, an earlier sent one, and before that an earlier queued one
  ghost predicate DeliveredAfterSent(audit: seq<Event>, id: Id) {
    exists m :: 0 <= m < |audit| && audit[m].aggregateId == id && audit[m].eventType == DeliveryRecorded(Delivered)
                && SentBefore(audit, m, id)
  }

  // what the events say of a delivery that has come this far
  ghost predicate DeliveryTrail(audit: seq<Event>, id: Id, status: DeliveryStatus) {
    match status
    case Queued => QueuedBefore(audit, |audit|, id)
    case Sent => SentBefore(audit, |audit|, id)
    case Delivered => DeliveredAfterSent(audit, id)
    case DeliveryFailed => QueuedBefore(audit, |audit|, id)
    case NotSent => true
  }

  ghost predicate WasApproved(audit: seq<Event>, id: Id, digest: Option<Digest>) {
    exists k :: 0 <= k < |audit| && audit[k].aggregateId == id && audit[k].eventType == DocumentApproved
      && audit[k].after == digest
  }

  // what the audit log says of a document, now or when it was selected
  ghost predicate Recorded(audit: seq<Event>, id: Id, d: Document) {
    && DeliveryTrail(audit, id, d.delivery)
    && (d.content == Approved || d.content == Superseded || d.execution == Executed || d.supersededBy.Some? ==>
          WasApproved(audit, id, d.generated))
  }

  ghost predicate DocumentSound(db: Db, id: Id)
    requires id in db.documents
  {
    var d := db.documents[id];
    && d.generated.Some?
    && (d.execution == Executed <==> d.executed.Some?)
    && Recorded(db.audit, id, d)
    && (d.supersededBy.Some? ==>
          && d.supersededBy.value in db.documents
          && Follows(db.documents[d.supersededBy.value], d))
  }

  // the next version of the same logical document, of the same type and about the same subject
  predicate Follows(next: Document, d: Document) {
    && next.logicalId == d.logicalId && next.version == d.version + 1 && next.docType == d.docType
    && next.subjectType == d.subjectType && next.subjectId == d.subjectId
  }

  ghost predicate TablesSound(db: Db) {
    && (forall id | id in db.documents :: DocumentSound(db, id))
    && (forall a | a in db.approvals :: Requested(db.documents, db.approvals[a]))
  }

  // the request is for the digest, the subject and the version of its document
  predicate Requested(documents: map<Id, Document>, a: Approval) {
    && a.documentId in documents && documents[a.documentId].generated == Some(a.artifact)
    && documents[a.documentId].subjectType == a.subjectType && documents[a.documentId].subjectId == a.subjectId
    && documents[a.documentId].version == a.subjectVersion
  }

  // the row a transaction selected, and what has become of it since
  ghost predicate FoundSound(db: Db, id: Id, found: Document) {
    id in db.documents && Successor(found, db.documents[id]) && Recorded(db.audit, id, found)
  }

  // where the subject resolved, it was healthy by the facts the gate saw
  ghost predicate Gated(subject: Option<bool>, facts: seq<Fact>, approval: Approval) {
    subject.Some? ==> Healthy(facts, approval.subjectType, approval.subjectId)
  }

  ghost predicate PhaseSound(db: Db, approvalId: Id, approve: bool, phase: Phase) {
    match phase
    case Entered => true
    case MustExpire => true
    case MustVoid => false
    case Fetched(approval) => IsRequest(db, approvalId, approval)
    case Loaded(approval) => IsRequest(db, approvalId, approval)
    case Checked(approval) => IsRequest(db, approvalId, approval)
    case Selected(approval, found) =>
      IsRequest(db, approvalId, approval) && Undecided(db, approvalId) && FoundSound(db, approval.documentId, found)
    case Resolved(approval, found, _) =>
      IsRequest(db, approvalId, approval) && Undecided(db, approvalId) && FoundSound(db, approval.documentId, found)
    case Passed(approval, found, subject, facts) =>
      && IsRequest(db, approvalId, approval) && Undecided(db, approvalId) && FoundSound(db, approval.documentId, found)
      && (approve ==> Gated(subject, facts, approval))
  }

  // but for its decision the request is as it was read
  ghost predicate IsRequest(db: Db, approvalId: Id, approval: Approval) {
    approvalId in db.approvals && approval == db.approvals[approvalId].(decision := None)
  }

  ghost predicate Undecided(db: Db, approvalId: Id) {
    approvalId in db.approvals && db.approvals[approvalId].decision.None?
  }

  ghost predicate CallSound(db: Db, c: Call) {
    match c
    case Approving(approvalId, approve, phase) => PhaseSound(db, approvalId, approve, phase)
    case Changing(_, documentId, found, _) => FoundSound(db, documentId, found)
  }

  ghost predicate CallsSound(s: State) {
    && (forall c | c in s.calls :: CallSound(s.db, s.calls[c]))
    && (forall c, d, a | c in s.calls && d in s.calls && HoldsLock(s.calls[c], a) && HoldsLock(s.calls[d], a) :: c == d)
  }

  ghost predicate DecidedSound(db: Db, d: Decided) {
    && d.approvalId in db.approvals && db.approvals[d.approvalId].decision.Some?
    && d.auditIndex < |db.audit|
    && (var e, a := db.audit[d.auditIndex], db.approvals[d.approvalId];
        && e.aggregateId == a.documentId && a.documentId in db.documents
        && e.eventType == (if d.approve then DocumentApproved else DocumentRejected)
        && e.after == Some(a.artifact)
        && (d.approve ==> Gated(d.subject, d.facts, a)))
  }

  predicate IsDecision(e: Event) {
    e.eventType == DocumentApproved || e.eventType == DocumentRejected
  }

  ghost predicate DecisionsSound(db: Db, decisions: seq<Decided>) {
    && (forall i, j | 0 <= i < j < |decisions| :: decisions[i].approvalId != decisions[j].approvalId)
    && (forall i | 0 <= i < |decisions| :: DecidedSound(db, decisions[i]))
    && (forall k | 0 <= k < |db.audit| && IsDecision(db.audit[k]) ::
          exists i :: 0 <= i < |decisions| && decisions[i].auditIndex == k)
  }

  ghost predicate Inv(s: State) {
    Replayed(s.db) && TablesSound(s.db) && CallsSound(s) && DecisionsSound(s.db, s.decisions)
  }

  // ---------------------------------------------------------------- growth: what every step respects

  // rows are never deleted, digests and requests never change, the audit log only grows
  ghost predicate Grows(db: Db, db': Db) {
    && db.audit <= db'.audit
    && (forall id | id in db.documents :: id in db'.documents && Successor(db.documents[id], db'.documents[id]))
    && (forall a | a in db.approvals ::
          && a in db'.approvals
          && db'.approvals[a].(decision := None) == db.approvals[a].(decision := None)
          && (db.approvals[a].decision.Some? ==> db'.approvals[a].decision.Some?))
  }

  // what no operation changes or takes back
  ghost predicate Successor(d: Document, d': Document) {
    && d'.logicalId == d.logicalId && d'.version == d.version && d'.docType == d.docType
    && d'.subjectType == d.subjectType && d'.subjectId == d.subjectId && d'.generated == d.generated
    && (d.execution == Executed ==> d'.execution == Executed)
    && (d.supersededBy.Some? ==> d'.supersededBy.Some?)
  }

  lemma EventKept(audit: seq<Event>, audit': seq<Event>, n: nat, id: Id, eventType: EventType)
    requires audit <= audit' && HasEvent(audit, n, id, eventType)
    ensures HasEvent(audit', n, id, eventType)
  {
    var k :| 0 <= k < n && audit[k].aggregateId == id && audit[k].eventType == eventType;
    assert audit'[k] == audit[k];
  }

  lemma SentKept(audit: seq<Event>, audit': seq<Event>, n: nat, id: Id)
    requires audit <= audit' && SentBefore(audit, n, id)
    ensures SentBefore(audit', n, id) && SentBefore(audit', |audit'|, id)
  {
    var k :| 0 <= k < n && audit[k].aggregateId == id && audit[k].eventType == DeliveryRecorded(Sent)
      && QueuedBefore(audit, k, id);
    EventKept(audit, audit', k, id, DeliveryRecorded(Queued));
    assert audit'[k] == audit[k];
  }

  lemma ApprovedKept(audit: seq<Event>, audit': seq<Event>, id: Id, digest: Option<Digest>)
    requires audit <= audit' && WasApproved(audit, id, digest)
    ensures WasApproved(audit', id, digest)
  {
    var k :| 0 <= k < |audit| && audit[k].aggregateId == id && audit[k].eventType == DocumentApproved
      && audit[k].after == digest;
    assert audit'[k] == audit[k];
  }

  lemma TrailKept(audit: seq<Event>, audit': seq<Event>, id: Id, status: DeliveryStatus)
    requires audit <= audit' && DeliveryTrail(audit, id, status)
    ensures DeliveryTrail(audit', id, status)
  {
    match status {
      case Queued => EventKept(audit, audit', |audit|, id, DeliveryRecorded(Queued));
      case Sent => SentKept(audit, audit', |audit|, id);
      case Delivered =>
        var m :| 0 <= m < |audit| && audit[m].aggregateId == id && audit[m].eventType == DeliveryRecorded(Delivered)
                 && SentBefore(audit, m, id);
        SentKept(audit, audit', m, id);
        assert audit'[m] == audit[m];
      case DeliveryFailed => EventKept(audit, audit', |audit|, id, DeliveryRecorded(Queued));
      case NotSent =>
    }
  }

  lemma RecordedKept(audit: seq<Event>, audit': seq<Event>, id: Id, d: Document)
    requires audit <= audit' && Recorded(audit, id, d)
    ensures Recorded(audit', id, d)
  {
    TrailKept(audit, audit', id, d.delivery);
    if WasApproved(audit, id, d.generated) {
      ApprovedKept(audit, audit', id, d.generated);
    }
  }

  lemma FoundKept(db: Db, db': Db, id: Id, found: Document)
    requires Grows(db, db') && FoundSound(db, id, found)
    ensures FoundSound(db', id, found)
  {
    assert Successor(db.documents[id], db'.documents[id]);
    RecordedKept(db.audit, db'.audit, id, found);
  }

  lemma RequestKept(db: Db, db': Db, a: Id)
    requires Grows(db, db') && a in db.approvals && a in db'.approvals && Requested(db.documents, db.approvals[a])
    ensures Requested(db'.documents, db'.approvals[a])
  {
    assert Successor(db.documents[db.approvals[a].documentId], db'.documents[db.approvals[a].documentId]);
    assert db'.approvals[a].(decision := None) == db.approvals[a].(decision := None);
    SameRequest(db.approvals[a], db'.approvals[a]);
  }

  lemma SameRequest(a: Approval, b: Approval)
    requires a.(decision := None) == b.(decision := None)
    ensures a.documentId == b.documentId && a.subjectType == b.subjectType && a.subjectId == b.subjectId
    ensures a.subjectVersion == b.subjectVersion && a.artifact == b.artifact && a.expiresAt == b.expiresAt
  {
    var x, y := a.(decision := None), b.(decision := None);
    assert x.documentId == y.documentId && x.subjectType == y.subjectType && x.subjectId == y.subjectId;
    assert x.subjectVersion == y.subjectVersion && x.artifact == y.artifact && x.expiresAt == y.expiresAt;
  }

  lemma UntouchedSound(db: Db, db': Db, id: Id)
    requires id in db.documents && DocumentSound(db, id) && Grows(db, db') && id in db'.documents
    requires db'.documents[id] == db.documents[id]
    ensures DocumentSound(db', id)
  {
    RecordedKept(db.audit, db'.audit, id, db.documents[id]);
    if db.documents[id].supersededBy.Some? {
      assert Successor(db.documents[db.documents[id].supersededBy.value],
                       db'.documents[db.documents[id].supersededBy.value]);
    }
  }

  lemma CallKept(db: Db, db': Db, c: Call)
    requires Grows(db, db') && CallSound(db, c)
    requires c.Approving? && HoldsLock(c, c.approvalId) ==> Undecided(db', c.approvalId)
    ensures CallSound(db', c)
  {
    match c
    case Changing(_, documentId, found, _) => FoundKept(db, db', documentId, found);
    case Approving(_, _, Selected(approval, found)) => FoundKept(db, db', approval.documentId, found);
    case Approving(_, _, Resolved(approval, found, _)) => FoundKept(db, db', approval.documentId, found);
    case Approving(_, _, Passed(approval, found, _, _)) => FoundKept(db, db', approval.documentId, found);
    case _ =>
  }

  lemma DecidedKept(db: Db, db': Db, d: Decided)
    requires DecidedSound(db, d) && Grows(db, db')
    ensures DecidedSound(db', d)
  {
    assert db'.audit[d.auditIndex] == db.audit[d.auditIndex];
    var a, a' := db.approvals[d.approvalId], db'.approvals[d.approvalId];
    assert a'.documentId == a.documentId && a'.artifact == a.artifact && a'.subjectType == a.subjectType
           && a'.subjectId == a.subjectId;
    assert Successor(db.documents[a.documentId], db'.documents[a.documentId]);
  }

  lemma DecisionsKept(db: Db, db': Db, decisions: seq<Decided>)
    requires DecisionsSound(db, decisions) && Grows(db, db')
    requires forall k | |db.audit| <= k < |db'.audit| :: !IsDecision(db'.audit[k])
    ensures DecisionsSound(db', decisions)
  {
    forall i | 0 <= i < |decisions| ensures DecidedSound(db', decisions[i]) {
      DecidedKept(db, db', decisions[i]);
    }
  }

  // ---------------------------------------------------------------- each write

  // The one document a write touches is sound afterwards; all others are as they were.
  lemma TouchedOne(db: Db, db': Db, e: Event)
    requires Replayed(db) && TablesSound(db) && Grows(db, db')
    requires db'.audit == db.audit + [e] && e.aggregateId in db'.documents
    requires forall id | id != e.aggregateId ::
               id in db'.documents ==> id in db.documents && db'.documents[id] == db.documents[id]
    requires Apply(ViewOf(db, e.aggregateId), e) == ViewOf(db', e.aggregateId)
    requires DocumentSound(db', e.aggregateId)
    requires forall a | a in db'.approvals && a !in db.approvals :: Requested(db'.documents, db'.approvals[a])
    ensures Replayed(db') && TablesSound(db')
  {
    forall id | id != e.aggregateId ensures ViewOf(db', id) == ViewOf(db, id) {
    }
    OneEventReplayed(db, db', e);
    forall id | id in db'.documents ensures DocumentSound(db', id) {
      if id != e.aggregateId {
        UntouchedSound(db, db', id);
      }
    }
    forall a | a in db'.approvals ensures Requested(db'.documents, db'.approvals[a]) {
      if a in db.approvals {
        RequestKept(db, db', a);
      }
    }
  }

  lemma DraftSound(db: Db, input: DraftInput, id: Id, logicalId: Id)
    requires Replayed(db) && TablesSound(db) && id !in db.documents
    ensures var db' := CommitDraft(db, input, id, logicalId); Replayed(db') && TablesSound(db') && Grows(db, db')
  {
    var db' := CommitDraft(db, input, id, logicalId);
    TouchedOne(db, db', db'.audit[|db.audit|]);
  }

  // a content status set by a transaction that selected the row in a status which allows it
  lemma ContentWritten(db: Db, db': Db, id: Id, found: Document, e: Event, to: ContentStatus)
    requires TablesSound(db) && FoundSound(db, id, found) && ContentAllowed(found.content, to)
    requires db'.documents == db.documents[id := db.documents[id].(content := to)] && db'.audit == db.audit + [e]
    requires to != Voided && e.aggregateId == id
    requires to == Approved ==> e.eventType == DocumentApproved && e.after == found.generated
    ensures DocumentSound(db', id)
  {
    assert DocumentSound(db, id);
    RecordedKept(db.audit, db'.audit, id, db.documents[id]);
    RecordedKept(db.audit, db'.audit, id, found);
    if to == Approved {
      assert db'.audit[|db.audit|] == e;
      assert WasApproved(db'.audit, id, found.generated);
    }
    hide DeliveryTrail, WasApproved;
  }

  lemma RequestSound(db: Db, id: Id, found: Document, approvalId: Id, now: int)
    requires Replayed(db) && TablesSound(db) && FoundSound(db, id, found) && approvalId !in db.approvals
    requires Refusal(found, ToRequest).None?
    ensures var db' := WriteRequest(db, id, found, approvalId, now);
            Replayed(db') && TablesSound(db') && Grows(db, db')
  {
    hide Replayed, Replay, DeliveryTrail, WasApproved, Recorded;
    var db' := WriteRequest(db, id, found, approvalId, now);
    var e := db'.audit[|db.audit|];
    ContentWritten(db, db', id, found, e, UnderReview);
    TouchedOne(db, db', e);
  }

  lemma AttachSound(db: Db, id: Id, found: Document, digest: Digest)
    requires Replayed(db) && TablesSound(db) && FoundSound(db, id, found) && Refusal(found, ToAttach).None?
    ensures var db' := WriteExecuted(db, id, found, digest); Replayed(db') && TablesSound(db') && Grows(db, db')
  {
    hide Replayed, Replay, DeliveryTrail, WasApproved;
    var db' := WriteExecuted(db, id, found, digest);
    assert DocumentSound(db, id);
    RecordedKept(db.audit, db'.audit, id, db.documents[id]);
    RecordedKept(db.audit, db'.audit, id, found);
    TouchedOne(db, db', db'.audit[|db.audit|]);
  }

  lemma NextTrail(audit: seq<Event>, e: Event, from: DeliveryStatus, to: DeliveryStatus)
    requires DeliveryTrail(audit, e.aggregateId, from) && DeliveryAllowed(from, to)
             && e.eventType == DeliveryRecorded(to)
    ensures DeliveryTrail(audit + [e], e.aggregateId, to)
  {
    var audit' := audit + [e];
    assert audit'[|audit|] == e;
    TrailKept(audit, audit', e.aggregateId, from);
    if from != to {
      match to {
        case Queued => assert HasEvent(audit', |audit'|, e.aggregateId, DeliveryRecorded(Queued));
        case Sent =>
          EventKept(audit, audit', |audit|, e.aggregateId, DeliveryRecorded(Queued));
          assert SentBefore(audit', |audit'|, e.aggregateId);
        case Delivered => SentKept(audit, audit', |audit|, e.aggregateId);
        case DeliveryFailed => assert QueuedBefore(audit', |audit'|, e.aggregateId);
      }
    }
  }

  lemma DeliverySound(db: Db, id: Id, found: Document, status: DeliveryStatus)
    requires Replayed(db) && TablesSound(db) && FoundSound(db, id, found)
    requires Refusal(found, ToDeliver(status)).None?
    ensures var db' := WriteDelivery(db, id, found, status); Replayed(db') && TablesSound(db') && Grows(db, db')
  {
    hide Replayed, Replay, DeliveryTrail, WasApproved;
    var db' := WriteDelivery(db, id, found, status);
    var e := db'.audit[|db.audit|];
    assert DocumentSound(db, id);
    RecordedKept(db.audit, db'.audit, id, db.documents[id]);
    NextTrail(db.audit, e, found.delivery, status);
    TouchedOne(db, db', e);
  }

  // superseding is one event on the old document and a draft for the new id
  lemma SupersedeSound(db: Db, id: Id, found: Document, digest: Digest, newId: Id)
    requires Replayed(db) && TablesSound(db) && FoundSound(db, id, found) && newId !in db.documents
    requires Refusal(found, ToSupersede).None?
    ensures var db' := WriteSuperseded(db, id, found, digest, newId);
            Replayed(db') && TablesSound(db') && Grows(db, db')
  {
    hide Replayed, TablesSound, FoundSound;
    var db' := WriteSuperseded(db, id, found, digest, newId);
    var e, e' := db'.audit[|db.audit|], db'.audit[|db.audit| + 1];
    var half := db.(documents := SetContent(db.documents, id, Superseded), audit := db.audit + [e]);
    RetireSound(db, half, id, found, e);
    assert db'.audit == half.audit + [e'];
    assert Successor(found, half.documents[id]);
    LinkNewVersion(half, db', id, newId, e');
    GrowsTransitive(db, half, db');
  }

  lemma RetireSound(db: Db, half: Db, id: Id, found: Document, e: Event)
    requires Replayed(db) && TablesSound(db) && FoundSound(db, id, found)
    requires ContentAllowed(found.content, Superseded)
    requires e.aggregateId == id && e.eventType == DocumentSuperseded && e.version == found.version
    requires half == db.(documents := SetContent(db.documents, id, Superseded), audit := db.audit + [e])
    ensures Replayed(half) && TablesSound(half) && Grows(db, half)
    ensures id in db.documents && id in half.documents && Successor(found, half.documents[id])
  {
    hide Replayed, Replay, DeliveryTrail, WasApproved, Recorded;
    ContentWritten(db, half, id, found, e, Superseded);
    TouchedOne(db, half, e);
  }

  lemma GrowsTransitive(a: Db, b: Db, c: Db)
    requires Grows(a, b) && Grows(b, c)
    ensures Grows(a, c)
  {
    assert a.audit <= c.audit;
    forall id | id in a.documents ensures id in c.documents && Successor(a.documents[id], c.documents[id]) {
      assert Successor(a.documents[id], b.documents[id]) && Successor(b.documents[id], c.documents[id]);
    }
  }

  lemma LinkNewVersion(db: Db, db': Db, documentId: Id, newId: Id, e: Event)
    requires Replayed(db) && TablesSound(db) && documentId in db.documents && newId !in db.documents
    requires db.documents[documentId].content == Superseded
    requires db'.audit == db.audit + [e] && db'.approvals == db.approvals
    requires e.aggregateId == newId && e.eventType == DraftGenerated && e.after.Some?
    requires newId in db'.documents && ViewOf(db', newId) == View(e.version, Draft, Unsigned, NotSent, e.after, None)
    requires db'.documents[newId].supersededBy == None
    requires Follows(db'.documents[newId], db.documents[documentId])
    requires db'.documents == db.documents[newId := db'.documents[newId]]
                              [documentId := db.documents[documentId].(supersededBy := Some(newId))]
    ensures Replayed(db') && TablesSound(db') && Grows(db, db')
  {
    hide Replay, DocumentSound;
    forall id | id != newId ensures ViewOf(db', id) == ViewOf(db, id) {
    }
    OneEventReplayed(db, db', e);
    forall id | id in db'.documents ensures DocumentSound(db', id) {
      if id == documentId {
        LinkedSound(db, db', id, newId);
      } else if id == newId {
        NewSound(db', newId);
      } else {
        UntouchedSound(db, db', id);
      }
    }
  }

  lemma LinkedSound(db: Db, db': Db, id: Id, newId: Id)
    requires id in db.documents && DocumentSound(db, id) && db.documents[id].content == Superseded
    requires db.audit <= db'.audit && id in db'.documents && newId in db'.documents
    requires db'.documents[id] == db.documents[id].(supersededBy := Some(newId))
    requires Follows(db'.documents[newId], db.documents[id])
    ensures DocumentSound(db', id)
  {
    RecordedKept(db.audit, db'.audit, id, db.documents[id]);
    hide DeliveryTrail, WasApproved;
  }

  lemma NewSound(db: Db, id: Id)
    requires id in db.documents && db.documents[id].generated.Some? && db.documents[id].executed.None?
    requires db.documents[id].supersededBy.None? && db.documents[id].content == Draft
    requires db.documents[id].execution == Unsigned && db.documents[id].delivery == NotSent
    ensures DocumentSound(db, id)
  {
  }

  // tables whose documents and audit log are the same, and whose requests differ in their decisions only
  lemma SameDocumentsSound(db: Db, db': Db)
    requires Replayed(db) && TablesSound(db)
    requires db'.documents == db.documents && db'.audit == db.audit && db'.approvals.Keys == db.approvals.Keys
    requires forall a | a in db.approvals ::
               db'.approvals[a].(decision := None) == db.approvals[a].(decision := None)
    ensures Replayed(db') && TablesSound(db')
  {
    forall id ensures Replay(db'.audit, id) == ViewOf(db', id) {
      assert Replay(db.audit, id) == ViewOf(db, id);
    }
    forall id | id in db'.documents ensures DocumentSound(db', id) {
      assert DocumentSound(db, id);
    }
    forall a | a in db'.approvals ensures Requested(db'.documents, db'.approvals[a]) {
      SameRequest(db.approvals[a], db'.approvals[a]);
    }
  }

  lemma DecisionGrows(db: Db, approvalId: Id, approval: Approval, found: Document, approve: bool)
    ensures Grows(db, WriteDecision(db, approvalId, approval, found, approve))
  {
  }

  lemma DecisionSound(db: Db, approvalId: Id, approval: Approval, found: Document, approve: bool)
    requires Replayed(db) && TablesSound(db) && FoundSound(db, approval.documentId, found)
    requires ContentAllowed(found.content, Target(approve))
    ensures var db' := WriteDecision(db, approvalId, approval, found, approve);
            Replayed(db') && TablesSound(db') && Grows(db, db')
  {
    DecisionGrows(db, approvalId, approval, found, approve);
    hide Replayed, Replay, DeliveryTrail, WasApproved, Recorded, Grows;
    var db' := WriteDecision(db, approvalId, approval, found, approve);
    var e := db'.audit[|db.audit|];
    ContentWritten(db, db', approval.documentId, found, e, Target(approve));
    TouchedOne(db, db', e);
  }

  lemma DecisionRecorded(db: Db, d: Decided, approval: Approval, found: Document)
    requires TablesSound(db) && IsRequest(db, d.approvalId, approval) && FoundSound(db, approval.documentId, found)
    requires d.approve ==> Gated(d.subject, d.facts, approval)
    requires d.auditIndex == |db.audit|
    ensures var db' := WriteDecision(db, d.approvalId, approval, found, d.approve);
            |db'.audit| == |db.audit| + 1 && DecidedSound(db', d)
  {
    hide Recorded, Healthy;
  }

  // ---------------------------------------------------------------- each step

  predicate ChangesTables(step: Step) {
    step.DraftStep? || step.RequestStep? || step.AttachStep? || step.DeliveryStep? || step.SupersedeStep?
    || step.WriteExpired? || step.WriteMismatch? || step.FactsChange?
  }

  lemma TableStepSound(s: State, step: Step, mapping: Mapping)
    requires Inv(s) && Enabled(s, step, mapping) && ChangesTables(step)
    ensures var db' := Next(s, step, mapping).db; Replayed(db') && TablesSound(db') && Grows(s.db, db')
  {
    hide Replayed, TablesSound, DecisionsSound, FoundSound;
    match step {
      case DraftStep(input, id, logicalId) => DraftSound(s.db, input, id, logicalId);
      case RequestStep(call, approvalId, at) =>
        assert CallSound(s.db, s.calls[call]);
        RequestSound(s.db, s.calls[call].documentId, s.calls[call].found, approvalId, at);
      case AttachStep(call, digest) =>
        assert CallSound(s.db, s.calls[call]);
        AttachSound(s.db, s.calls[call].documentId, s.calls[call].found, digest);
      case DeliveryStep(call) =>
        assert CallSound(s.db, s.calls[call]);
        DeliverySound(s.db, s.calls[call].documentId, s.calls[call].found, s.calls[call].op.status);
      case SupersedeStep(call, digest, newId) =>
        assert CallSound(s.db, s.calls[call]);
        SupersedeSound(s.db, s.calls[call].documentId, s.calls[call].found, digest, newId);
      case _ => QuietTablesSound(s, step, mapping);
    }
  }

  lemma QuietTablesSound(s: State, step: Step, mapping: Mapping)
    requires Replayed(s.db) && TablesSound(s.db) && Enabled(s, step, mapping)
    requires step.WriteExpired? || step.WriteMismatch? || step.FactsChange?
    ensures var db' := Next(s, step, mapping).db; Replayed(db') && TablesSound(db') && Grows(s.db, db')
  {
    hide Replayed, TablesSound;
    SameDocumentsSound(s.db, Next(s, step, mapping).db);
  }

  // the step ends at most its own call and decides nothing, and leaves locked requests alone
  lemma TableStepCalls(s: State, step: Step, mapping: Mapping)
    requires Inv(s) && Enabled(s, step, mapping) && ChangesTables(step)
    ensures Next(s, step, mapping).decisions == s.decisions
    ensures forall c | c in Next(s, step, mapping).calls ::
              c in s.calls && Next(s, step, mapping).calls[c] == s.calls[c]
    ensures forall a | a in s.db.approvals && !LockFree(s, a) ::
              a in Next(s, step, mapping).db.approvals && Next(s, step, mapping).db.approvals[a] == s.db.approvals[a]
  {
    hide Inv, MayWrite, SetContent, SetSuperseded, Corrected, GateOpens;
  }

  lemma TableStepEvents(s: State, step: Step, mapping: Mapping)
    requires Enabled(s, step, mapping) && ChangesTables(step)
    ensures forall k | |s.db.audit| <= k < |Next(s, step, mapping).db.audit| ::
              !IsDecision(Next(s, step, mapping).db.audit[k])
  {
    hide MayWrite, SetContent, SetSuperseded;
  }

  lemma LockedUndecided(s: State, c: CallId)
    requires CallsSound(s) && c in s.calls && s.calls[c].Approving?
    requires HoldsLock(s.calls[c], s.calls[c].approvalId)
    ensures Undecided(s.db, s.calls[c].approvalId) && !LockFree(s, s.calls[c].approvalId)
  {
    assert CallSound(s.db, s.calls[c]);
  }

  // calls that go on through a step of another one
  lemma CallsKept(s: State, s': State)
    requires CallsSound(s) && Grows(s.db, s'.db)
    requires forall c | c in s'.calls :: c in s.calls && s'.calls[c] == s.calls[c]
    requires forall c | c in s'.calls && s'.calls[c].Approving? && HoldsLock(s'.calls[c], s'.calls[c].approvalId) ::
               Undecided(s'.db, s'.calls[c].approvalId)
    ensures CallsSound(s')
  {
    hide Grows, CallSound, HoldsLock;
    forall c | c in s'.calls ensures CallSound(s'.db, s'.calls[c]) {
      CallKept(s.db, s'.db, s.calls[c]);
    }
  }

  lemma TableStepKeepsInv(s: State, step: Step, mapping: Mapping)
    requires Inv(s) && Enabled(s, step, mapping) && ChangesTables(step)
    ensures Inv(Next(s, step, mapping)) && Grows(s.db, Next(s, step, mapping).db)
  {
    hide Replayed, TablesSound, Grows, DecisionsSound, CallsSound, Next, Enabled, LockFree;
    var s' := Next(s, step, mapping);
    TableStepSound(s, step, mapping);
    TableStepCalls(s, step, mapping);
    TableStepEvents(s, step, mapping);
    forall c | c in s'.calls && s'.calls[c].Approving? && HoldsLock(s'.calls[c], s'.calls[c].approvalId)
      ensures Undecided(s'.db, s'.calls[c].approvalId)
    {
      LockedUndecided(s, c);
    }
    CallsKept(s, s');
    DecisionsKept(s.db, s'.db, s.decisions);
  }

  lemma DecideKeepsInv(s: State, call: CallId, mapping: Mapping)
    requires Inv(s) && Enabled(s, DecideStep(call), mapping)
    ensures Inv(AfterDecide(s, call)) && Grows(s.db, AfterDecide(s, call).db)
  {
    hide Replayed, TablesSound, Grows, DecisionsSound, FoundSound;
    var c := s.calls[call];
    var s' := AfterDecide(s, call);
    assert CallSound(s.db, c);
    DecisionSound(s.db, c.approvalId, c.phase.approval, c.phase.found, c.approve);
    DecisionRecorded(s.db, s'.decisions[|s.decisions|], c.phase.approval, c.phase.found);
    OthersUndecided(s, call, mapping);
    CallsKept(s, s');
    DecisionAdded(s.db, s'.db, s.decisions, s'.decisions);
  }

  // no other call holds the lock of the decider
  lemma OthersUndecided(s: State, call: CallId, mapping: Mapping)
    requires CallsSound(s) && Enabled(s, DecideStep(call), mapping)
    ensures var s' := AfterDecide(s, call);
            forall c | c in s'.calls && s'.calls[c].Approving? && HoldsLock(s'.calls[c], s'.calls[c].approvalId) ::
              Undecided(s'.db, s'.calls[c].approvalId)
  {
    hide CallSound;
    var s' := AfterDecide(s, call);
    forall c | c in s'.calls && s'.calls[c].Approving? && HoldsLock(s'.calls[c], s'.calls[c].approvalId)
      ensures Undecided(s'.db, s'.calls[c].approvalId)
    {
      LockedUndecided(s, c);
      assert HoldsLock(s.calls[call], s.calls[call].approvalId);
      assert s.calls[c].approvalId != s.calls[call].approvalId;
    }
  }

  lemma DecisionAdded(db: Db, db': Db, decisions: seq<Decided>, decisions': seq<Decided>)
    requires DecisionsSound(db, decisions) && Grows(db, db') && |db'.audit| == |db.audit| + 1
    requires |decisions'| == |decisions| + 1 && decisions <= decisions'
    requires DecidedSound(db', decisions'[|decisions|])
    requires decisions'[|decisions|].auditIndex == |db.audit|
    requires Undecided(db, decisions'[|decisions|].approvalId)
    ensures DecisionsSound(db', decisions')
  {
    var n := |decisions|;
    forall i | 0 <= i < |decisions'| ensures DecidedSound(db', decisions'[i]) {
      if i < n {
        assert decisions'[i] == decisions[i];
        DecidedKept(db, db', decisions[i]);
      }
    }
    forall i, j | 0 <= i < j < |decisions'| ensures decisions'[i].approvalId != decisions'[j].approvalId {
      assert decisions'[i] == decisions[i];
      if j == n {
        assert DecidedSound(db, decisions[i]);
      } else {
        assert decisions'[j] == decisions[j];
      }
    }
    forall k | 0 <= k < |db'.audit| && IsDecision(db'.audit[k])
      ensures exists i :: 0 <= i < |decisions'| && decisions'[i].auditIndex == k
    {
      if k < |db.audit| {
        assert db'.audit[k] == db.audit[k];
        var i :| 0 <= i < |decisions| && decisions[i].auditIndex == k;
        assert decisions'[i] == decisions[i];
      } else {
        assert decisions'[n].auditIndex == k;
      }
    }
  }

  // a step that reads, starts or ends one call
  lemma SameTablesKeepInv(s: State, s': State, call: CallId)
    requires Inv(s) && s'.db == s.db && s'.decisions == s.decisions
    requires forall c | c in s'.calls && c != call :: c in s.calls && s'.calls[c] == s.calls[c]
    requires call in s'.calls ==> CallSound(s.db, s'.calls[call])
    requires call in s'.calls ==>
               forall a | HoldsLock(s'.calls[call], a) ::
                 LockFree(s, a) || (call in s.calls && HoldsLock(s.calls[call], a))
    ensures Inv(s')
  {
    hide Replayed, TablesSound, DecisionsSound, CallSound, HoldsLock;
    forall c, d, a | c in s'.calls && d in s'.calls && HoldsLock(s'.calls[c], a) && HoldsLock(s'.calls[d], a)
      ensures c == d
    {
    }
  }

  lemma SelectedSound(s: State, id: Id)
    requires TablesSound(s.db) && id in s.db.documents
    ensures FoundSound(s.db, id, s.db.documents[id])
  {
    assert DocumentSound(s.db, id);
  }

  lemma GateIsHealth(subject: Option<bool>, facts: seq<Fact>, approval: Approval)
    requires GateOpens(subject, facts, approval)
    ensures Gated(subject, facts, approval)
  {
    if subject.Some? {
      GateIffHealthy(subject.value, facts, approval.subjectType, approval.subjectId);
    }
  }

  // what a call has read is sound
  lemma CallStepSound(s: State, step: Step, mapping: Mapping)
    requires Inv(s) && Enabled(s, step, mapping) && !ChangesTables(step) && !step.DecideStep? && !step.Tick?
    ensures step.call in Next(s, step, mapping).calls ==>
              CallSound(s.db, Next(s, step, mapping).calls[step.call])
  {
    hide Replayed, TablesSound, DecisionsSound, FoundSound, GateOpens, Gated, SubjectRow;
    if step.call in s.calls {
      assert CallSound(s.db, s.calls[step.call]);
    }
    match step {
      case SelectStep(_, _, documentId) => SelectedSound(s, documentId);
      case SelectToDecide(call) =>
        var approval := s.calls[call].phase.approval;
        if approval.documentId in s.db.documents {
          SelectedSound(s, approval.documentId);
        }
      case PassGate(call) =>
        if s.calls[call].approve {
          GateIsHealth(s.calls[call].phase.subject, s.db.facts, s.calls[call].phase.approval);
        }
      case ReadDocument(call) => RequestedDigest(s, s.calls[call]);
      case _ =>
    }
  }

  // no digest differs from the requested one
  lemma RequestedDigest(s: State, c: Call)
    requires TablesSound(s.db) && c.Approving? && c.phase.Loaded? && IsRequest(s.db, c.approvalId, c.phase.approval)
    ensures c.phase.approval.documentId in s.db.documents
    ensures s.db.documents[c.phase.approval.documentId].generated == Some(c.phase.approval.artifact)
  {
    assert c.phase.approval.documentId == s.db.approvals[c.approvalId].documentId;
  }

  lemma CallStepKeepsInv(s: State, step: Step, mapping: Mapping)
    requires Inv(s) && Enabled(s, step, mapping) && !ChangesTables(step) && !step.DecideStep?
    ensures Inv(Next(s, step, mapping)) && Next(s, step, mapping).db == s.db
  {
    hide Replayed, TablesSound, DecisionsSound, CallSound, GateOpens, SubjectRow;
    if step.Tick? {
      assert CallsSound(Next(s, step, mapping));
    } else {
      CallStepSound(s, step, mapping);
      SameTablesKeepInv(s, Next(s, step, mapping), step.call);
    }
  }

  lemma StepKeepsInv(s: State, step: Step, mapping: Mapping)
    requires Inv(s) && Enabled(s, step, mapping)
    ensures Inv(Next(s, step, mapping)) && Grows(s.db, Next(s, step, mapping).db)
  {
    hide Inv;
    if ChangesTables(step) {
      TableStepKeepsInv(s, step, mapping);
    } else if step.DecideStep? {
      DecideKeepsInv(s, step.call, mapping);
    } else {
      CallStepKeepsInv(s, step, mapping);
    }
  }

  lemma {:induction false} RunKeepsInv(states: seq<State>, steps: seq<Step>, mapping: Mapping, i: nat)
    requires IsRun(states, steps, mapping) && i < |states|
    ensures Inv(states[i])
  {
    if i > 0 {
      hide Inv, Next, Enabled;
      RunKeepsInv(states, steps, mapping, i - 1);
      StepKeepsInv(states[i - 1], steps[i - 1], mapping);
    } else {
      InitialInv(states[0]);
    }
  }

  lemma InitialInv(s: State)
    requires Initial(s)
    ensures Inv(s)
  {
  }

  // ---------------------------------------------------------------- main results

  /** Replaying each document's audit events, in chain order, gives back its row, after any run. */
  lemma AuditLogRebuildsDocuments(states: seq<State>, steps: seq<Step>, mapping: Mapping, i: nat, id: Id)
    requires IsRun(states, steps, mapping) && i < |states|
    ensures Replay(states[i].db.audit, id) == ViewOf(states[i].db, id)
  {
    RunKeepsInv(states, steps, mapping, i);
  }

  /** However the calls interleave, at most one decision commits for a request. */
  lemma AtMostOneDecision(states: seq<State>, steps: seq<Step>, mapping: Mapping, i: nat, j: nat, k: nat)
    requires IsRun(states, steps, mapping) && i < |states| && j < k < |states[i].decisions|
    ensures states[i].decisions[j].approvalId != states[i].decisions[k].approvalId
  {
    RunKeepsInv(states, steps, mapping, i);
  }

  /** Every document.approved event stands for one committed decision on a request: it names that request's
      document and digest, and where the subject resolved, the subject was healthy when the gate looked. */
  lemma ApprovedEventsAreGated(states: seq<State>, steps: seq<Step>, mapping: Mapping, i: nat, k: nat)
    returns (d: Decided)
    requires IsRun(states, steps, mapping) && i < |states|
    requires k < |states[i].db.audit| && states[i].db.audit[k].eventType == DocumentApproved
    ensures d in states[i].decisions && d.approve && d.auditIndex == k && d.approvalId in states[i].db.approvals
    ensures var e, a := states[i].db.audit[k], states[i].db.approvals[d.approvalId];
            e.aggregateId == a.documentId && e.after == Some(a.artifact) && Gated(d.subject, d.facts, a)
  {
    RunKeepsInv(states, steps, mapping, i);
    var s := states[i];
    assert IsDecision(s.db.audit[k]);
    var n :| 0 <= n < |s.decisions| && s.decisions[n].auditIndex == k;
    d := s.decisions[n];
    assert DecidedSound(s.db, d);
  }

  // the call, for this request, has read this subject row
  predicate HasResolved(s: State, call: CallId, approvalId: Id, subject: Option<bool>) {
    Approves(s, call) && s.calls[call].approvalId == approvalId
    && (s.calls[call].phase.Resolved? || s.calls[call].phase.Passed?) && s.calls[call].phase.subject == subject
  }

  // what reading the subject comes to: its row, exactly if a mapping file asks for it and it is there
  ghost predicate ReadsSubject(s: State, call: CallId, approvalId: Id, subject: Option<bool>, mapping: Mapping) {
    && Approves(s, call) && s.calls[call].approvalId == approvalId && s.calls[call].phase.Selected?
    && var approval, found := s.calls[call].phase.approval, s.calls[call].phase.found;
       && (subject.Some? <==> mapping(found.docType, approval.subjectType)
                              && (approval.subjectType, approval.subjectId) in s.db.subjects)
       && (subject.Some? ==> subject.value == s.db.subjects[(approval.subjectType, approval.subjectId)])
  }

  // what a call says of its subject it has read in the run
  lemma {:induction false} ResolvedInTheRun(states: seq<State>, steps: seq<Step>, mapping: Mapping, i: nat,
                                            call: CallId, approvalId: Id, subject: Option<bool>) returns (r: nat)
    requires IsRun(states, steps, mapping) && i < |states| && HasResolved(states[i], call, approvalId, subject)
    ensures r < i && steps[r] == ReadSubject(call) && ReadsSubject(states[r], call, approvalId, subject, mapping)
    decreases i
  {
    hide HasResolved, ReadsSubject, Enabled, Next;
    NoneResolvedAtFirst(states[0], call, approvalId, subject);
    r := i - 1;
    if steps[r] == ReadSubject(call) {
      ResolvedNow(states[r], mapping, call, approvalId, subject);
    } else {
      ResolvedBefore(states[r], steps[r], mapping, call, approvalId, subject);
      r := ResolvedInTheRun(states, steps, mapping, r, call, approvalId, subject);
    }
  }

  lemma NoneResolvedAtFirst(s: State, call: CallId, approvalId: Id, subject: Option<bool>)
    ensures Initial(s) ==> !HasResolved(s, call, approvalId, subject)
  {
  }

  lemma ResolvedNow(s: State, mapping: Mapping, call: CallId, approvalId: Id, subject: Option<bool>)
    requires Enabled(s, ReadSubject(call), mapping)
    requires HasResolved(Next(s, ReadSubject(call), mapping), call, approvalId, subject)
    ensures ReadsSubject(s, call, approvalId, subject, mapping)
  {
  }

  lemma ResolvedBefore(s: State, step: Step, mapping: Mapping, call: CallId, approvalId: Id, subject: Option<bool>)
    requires Enabled(s, step, mapping) && step != ReadSubject(call)
    requires HasResolved(Next(s, step, mapping), call, approvalId, subject)
    ensures HasResolved(s, call, approvalId, subject)
  {
    hide GateOpens, SubjectRow, MayWrite, Written;
  }

  // what a call says of the facts its gate has read in the run
  lemma {:induction false} PassedInTheRun(states: seq<State>, steps: seq<Step>, mapping: Mapping, i: nat, call: CallId)
    returns (g: nat)
    requires IsRun(states, steps, mapping) && i < |states|
    requires Approves(states[i], call) && states[i].calls[call].phase.Passed?
    ensures g < i && steps[g] == PassGate(call) && states[g].db.facts == states[i].calls[call].phase.facts
    ensures HasResolved(states[g], call, states[i].calls[call].approvalId, states[i].calls[call].phase.subject)
    decreases i
  {
    hide SubjectRow, GateOpens, MayWrite, Written, LockFree;
    g := i - 1;
    if steps[g] != PassGate(call) {
      PassedBefore(states[g], steps[g], mapping, call);
      g := PassedInTheRun(states, steps, mapping, g, call);
    }
  }

  lemma PassedBefore(s: State, step: Step, mapping: Mapping, call: CallId)
    requires Enabled(s, step, mapping) && step != PassGate(call)
    requires Approves(Next(s, step, mapping), call) && Next(s, step, mapping).calls[call].phase.Passed?
    ensures call in s.calls && s.calls[call] == Next(s, step, mapping).calls[call]
  {
    hide GateOpens, SubjectRow, MayWrite, Written;
  }

  /** The subject and the facts a decision is recorded to have seen are those its own call read in the run, first the
      one and then the other, and its event is the one its own commit appended. The subject is a row exactly if a
      mapping file asked for it and the table had it then. */
  lemma {:induction false} DecisionsComeFromTheRun(states: seq<State>, steps: seq<Step>, mapping: Mapping, i: nat,
                                                   d: Decided) returns (r: nat, g: nat, j: nat)
    requires IsRun(states, steps, mapping) && i < |states| && d in states[i].decisions
    ensures r < g < j < i && steps[j].DecideStep? && |states[j].db.audit| == d.auditIndex
    ensures steps[g] == PassGate(steps[j].call) && states[g].db.facts == d.facts
    ensures steps[r] == ReadSubject(steps[j].call)
    ensures ReadsSubject(states[r], steps[j].call, d.approvalId, d.subject, mapping)
    decreases i
  {
    hide SubjectRow, GateOpens, MayWrite, Written, LockFree, ReadsSubject;
    j := i - 1;
    if d in states[j].decisions {
      r, g, j := DecisionsComeFromTheRun(states, steps, mapping, j, d);
    } else {
      DecidedNow(states[j], steps[j], mapping, d);
      g := PassedInTheRun(states, steps, mapping, j, steps[j].call);
      r := ResolvedInTheRun(states, steps, mapping, g, steps[j].call, d.approvalId, d.subject);
    }
  }

  lemma DecidedNow(s: State, step: Step, mapping: Mapping, d: Decided)
    requires Enabled(s, step, mapping) && d in Next(s, step, mapping).decisions && d !in s.decisions
    ensures step.DecideStep? && d.auditIndex == |s.db.audit| && d.approvalId == s.calls[step.call].approvalId
    ensures d.subject == s.calls[step.call].phase.subject && d.facts == s.calls[step.call].phase.facts
  {
    hide GateOpens, SubjectRow, MayWrite, Written;
  }

  lemma {:induction false} RunGrows(states: seq<State>, steps: seq<Step>, mapping: Mapping, i: nat, j: nat)
    requires IsRun(states, steps, mapping) && i <= j < |states|
    ensures Grows(states[i].db, states[j].db)
  {
    hide Inv, Next, Enabled, Grows;
    if i == j {
      GrowsFromItself(states[i].db);
    } else {
      RunGrows(states, steps, mapping, i, j - 1);
      RunKeepsInv(states, steps, mapping, j - 1);
      StepKeepsInv(states[j - 1], steps[j - 1], mapping);
      GrowsTransitive(states[i].db, states[j - 1].db, states[j].db);
    }
  }

  lemma GrowsFromItself(db: Db)
    ensures Grows(db, db)
  {
  }

  // what a call has selected tells type and subject of the document for good
  lemma SelectedFor(s: State, later: Db, call: CallId)
    requires CallsSound(s) && TablesSound(later) && Grows(s.db, later)
    requires Approves(s, call) && s.calls[call].phase.Selected?
    ensures var c := s.calls[call];
            && c.approvalId in later.approvals && later.approvals[c.approvalId].documentId in later.documents
            && var d := later.documents[later.approvals[c.approvalId].documentId];
               && c.phase.found.docType == d.docType
               && c.phase.approval.subjectType == d.subjectType && c.phase.approval.subjectId == d.subjectId
  {
    hide Recorded, DocumentSound;
    var c := s.calls[call];
    assert CallSound(s.db, c);
    var a, a' := s.db.approvals[c.approvalId], later.approvals[c.approvalId];
    SameRequest(a, a');
    SameRequest(a, c.phase.approval);
    assert Successor(c.phase.found, s.db.documents[a.documentId]);
    assert Successor(s.db.documents[a.documentId], later.documents[a.documentId]);
    assert Requested(later.documents, a');
  }

  /** Every document.approved event was committed by a call that read the subject at r, looked at the facts at g and
      committed at j: if a mapping file asks for the subject of the document's type and the table had its row at r, then
      the subject was healthy by the facts at g. */
  lemma ApprovalsAreHealthy(states: seq<State>, steps: seq<Step>, mapping: Mapping, i: nat, k: nat)
    returns (r: nat, g: nat, j: nat)
    requires IsRun(states, steps, mapping) && i < |states|
    requires k < |states[i].db.audit| && states[i].db.audit[k].eventType == DocumentApproved
    ensures r < g < j < i && steps[j].DecideStep? && |states[j].db.audit| == k
    ensures steps[g] == PassGate(steps[j].call) && steps[r] == ReadSubject(steps[j].call)
    ensures states[i].db.audit[k].aggregateId in states[i].db.documents
    ensures var d := states[i].db.documents[states[i].db.audit[k].aggregateId];
            mapping(d.docType, d.subjectType) && (d.subjectType, d.subjectId) in states[r].db.subjects ==>
              Healthy(states[g].db.facts, d.subjectType, d.subjectId)
  {
    hide Healthy, DocumentSound, Replayed, DecisionsSound, Next, Enabled, Grows, CallSound;
    var decided := ApprovedEventsAreGated(states, steps, mapping, i, k);
    r, g, j := DecisionsComeFromTheRun(states, steps, mapping, i, decided);
    RunKeepsInv(states, steps, mapping, r);
    RunKeepsInv(states, steps, mapping, i);
    RunGrows(states, steps, mapping, r, i);
    SelectedFor(states[r], states[i].db, steps[j].call);
    assert Requested(states[i].db.documents, states[i].db.approvals[decided.approvalId]);
  }

  // ---------------------------------------------------------------- decisions come in time

  // the call, for this request, has found it in time
  predicate WasInTime(s: State, call: CallId, approvalId: Id) {
    Approves(s, call) && s.calls[call].approvalId == approvalId
    && !s.calls[call].phase.Entered? && !s.calls[call].phase.Fetched? && !s.calls[call].phase.MustExpire?
  }

  // the clock does not say that the request as read has expired
  predicate FindsInTime(s: State, call: CallId, approvalId: Id) {
    Approves(s, call) && s.calls[call].approvalId == approvalId && s.calls[call].phase.Fetched?
    && s.now <= s.calls[call].phase.approval.expiresAt
  }

  lemma InTimeBefore(s: State, step: Step, mapping: Mapping, call: CallId, approvalId: Id)
    requires Enabled(s, step, mapping) && WasInTime(Next(s, step, mapping), call, approvalId)
    ensures WasInTime(s, call, approvalId) || (step == CheckExpiry(call) && FindsInTime(s, call, approvalId))
  {
    hide GateOpens, SubjectRow, MayWrite, Written;
  }

  lemma {:induction false} InTimeInTheRun(states: seq<State>, steps: seq<Step>, mapping: Mapping, i: nat, call: CallId,
                                          approvalId: Id) returns (e: nat)
    requires IsRun(states, steps, mapping) && i < |states| && WasInTime(states[i], call, approvalId)
    ensures e < i && steps[e] == CheckExpiry(call) && FindsInTime(states[e], call, approvalId)
    decreases i
  {
    hide Next, Enabled, FindsInTime;
    e := i - 1;
    InTimeBefore(states[e], steps[e], mapping, call, approvalId);
    if WasInTime(states[e], call, approvalId) {
      e := InTimeInTheRun(states, steps, mapping, e, call, approvalId);
    }
  }

  // the step inserts the request, to be decided within 72 hours
  predicate Requests(s: State, step: Step, a: Id, expiresAt: int) {
    step.RequestStep? && step.approvalId == a && step.at <= s.now && expiresAt == step.at + 259_200_000
  }

  lemma RequestBefore(s: State, step: Step, mapping: Mapping, a: Id)
    requires Enabled(s, step, mapping) && a in Next(s, step, mapping).db.approvals
    ensures (a in s.db.approvals && s.db.approvals[a].expiresAt == Next(s, step, mapping).db.approvals[a].expiresAt)
         || Requests(s, step, a, Next(s, step, mapping).db.approvals[a].expiresAt)
  {
    hide GateOpens, SubjectRow, SetContent, SetSuperseded;
  }

  lemma {:induction false} RequestedInTheRun(states: seq<State>, steps: seq<Step>, mapping: Mapping, i: nat, a: Id)
    returns (m: nat)
    requires IsRun(states, steps, mapping) && i < |states| && a in states[i].db.approvals
    ensures m < i && Requests(states[m], steps[m], a, states[i].db.approvals[a].expiresAt)
    decreases i
  {
    hide Next, Enabled, Requests;
    m := i - 1;
    RequestBefore(states[m], steps[m], mapping, a);
    if !Requests(states[m], steps[m], a, states[i].db.approvals[a].expiresAt) {
      m := RequestedInTheRun(states, steps, mapping, m, a);
    }
  }

  /** No decision commits for a call that found its request expired: the call that commits at j looked at the clock at
      e, at most 72 hours after the present that the request was made for at m. */
  lemma DecisionsAreInTime(states: seq<State>, steps: seq<Step>, mapping: Mapping, j: nat) returns (m: nat, e: nat)
    requires IsRun(states, steps, mapping) && j < |steps| && steps[j].DecideStep?
    ensures m < e < j && steps[e] == CheckExpiry(steps[j].call) && Approves(states[j], steps[j].call)
    ensures steps[m].RequestStep? && steps[m].approvalId == states[j].calls[steps[j].call].approvalId
    ensures steps[m].at <= states[m].now && states[e].now <= steps[m].at + 259_200_000
  {
    var call := steps[j].call;
    assert Enabled(states[j], steps[j], mapping);
    var approvalId := states[j].calls[call].approvalId;
    hide Next, Enabled, IsRun;
    e := InTimeInTheRun(states, steps, mapping, j, call, approvalId);
    RunKeepsInv(states, steps, mapping, e);
    assert CallSound(states[e].db, states[e].calls[call]);
    SameRequest(states[e].db.approvals[approvalId], states[e].calls[call].phase.approval);
    m := RequestedInTheRun(states, steps, mapping, e, approvalId);
  }

  lemma DecideKeepsDecided(s: State, call: CallId, mapping: Mapping, a: Id)
    requires Inv(s) && Enabled(s, DecideStep(call), mapping)
    requires a in s.db.approvals && s.db.approvals[a].decision.Some?
    ensures var s' := AfterDecide(s, call); a in s'.db.approvals && s'.db.approvals[a] == s.db.approvals[a]
  {
    assert CallSound(s.db, s.calls[call]);
  }

  lemma TablesKeepDecided(s: State, step: Step, mapping: Mapping, a: Id)
    requires Enabled(s, step, mapping) && ChangesTables(step) && !step.WriteExpired? && !step.WriteMismatch?
    requires a in s.db.approvals && s.db.approvals[a].decision.Some?
    ensures var s' := Next(s, step, mapping); a in s'.db.approvals && s'.db.approvals[a] == s.db.approvals[a]
  {
    hide SetContent, SetSuperseded;
  }

  lemma NoneMustVoid(s: State)
    requires Inv(s)
    ensures forall c | c in s.calls && s.calls[c].Approving? :: !s.calls[c].phase.MustVoid?
  {
    forall c | c in s.calls && s.calls[c].Approving? ensures !s.calls[c].phase.MustVoid? {
      assert CallSound(s.db, s.calls[c]);
    }
  }

  /** The write that voids a request for a changed digest never comes up: in no run does a document's digest differ
      from the one that a request for it recorded. */
  lemma NoMismatch(states: seq<State>, steps: seq<Step>, mapping: Mapping, i: nat, a: Id)
    requires IsRun(states, steps, mapping) && i < |states|
    ensures i < |steps| ==> !steps[i].WriteMismatch?
    ensures a in states[i].db.approvals ==>
              states[i].db.approvals[a].documentId in states[i].db.documents
              && states[i].db.documents[states[i].db.approvals[a].documentId].generated
                == Some(states[i].db.approvals[a].artifact)
  {
    RunKeepsInv(states, steps, mapping, i);
    NoneMustVoid(states[i]);
  }

  lemma OthersKeepDecided(s: State, step: Step, mapping: Mapping, a: Id)
    requires Inv(s) && Enabled(s, step, mapping) && !step.WriteExpired? && a in s.db.approvals
             && s.db.approvals[a].decision.Some?
    ensures var s' := Next(s, step, mapping); a in s'.db.approvals && s'.db.approvals[a] == s.db.approvals[a]
  {
    NoneMustVoid(s);
    if ChangesTables(step) {
      TablesKeepDecided(s, step, mapping, a);
    } else if step.DecideStep? {
      DecideKeepsDecided(s, step.call, mapping, a);
    } else {
      CallStepKeepsInv(s, step, mapping);
    }
  }

  /** A recorded decision is not write-once: a call that found the request undecided and expired still
      writes "expired" over it. Nothing else ever changes a decision. */
  lemma DecisionChangesOnlyByLateExpiry(states: seq<State>, steps: seq<Step>, mapping: Mapping, i: nat, a: Id)
    requires IsRun(states, steps, mapping) && i < |steps|
    requires a in states[i].db.approvals && states[i].db.approvals[a].decision.Some?
    ensures a in states[i + 1].db.approvals
    ensures states[i + 1].db.approvals[a].decision != states[i].db.approvals[a].decision
       <==> (steps[i].WriteExpired? && states[i].calls[steps[i].call].approvalId == a
             && states[i].db.approvals[a].decision != Some(Expired))
  {
    RunKeepsInv(states, steps, mapping, i);
    hide Inv;
    if !steps[i].WriteExpired? {
      OthersKeepDecided(states[i], steps[i], mapping, a);
    }
  }

  /** In every run: approved, superseded, executed and replaced documents were approved for their unchanged digest; a
      delivered one was sent, and queued before that; a link leads to the next version. */
  lemma DocumentsStaySound(states: seq<State>, steps: seq<Step>, mapping: Mapping, i: nat, id: Id)
    requires IsRun(states, steps, mapping) && i < |states| && id in states[i].db.documents
    ensures DocumentSound(states[i].db, id)
  {
    RunKeepsInv(states, steps, mapping, i);
  }

  /** In every run: an executed document stays executed, a replaced one replaced, and no document's identity, version
      or digest ever changes. */
  lemma {:induction false} RowsOnlyGrow(states: seq<State>, steps: seq<Step>, mapping: Mapping, i: nat, j: nat, id: Id)
    requires IsRun(states, steps, mapping) && i <= j < |states| && id in states[i].db.documents
    ensures id in states[j].db.documents && Successor(states[i].db.documents[id], states[j].db.documents[id])
  {
    hide Inv, Next, Enabled;
    if i < j {
      RowsOnlyGrow(states, steps, mapping, i, j - 1, id);
      RunKeepsInv(states, steps, mapping, j - 1);
      StepKeepsInv(states[j - 1], steps[j - 1], mapping);
      assert Successor(states[j - 1].db.documents[id], states[j].db.documents[id]);
    }
  }

  // the greatest version among the documents
  ghost function MaxVersion(documents: map<Id, Document>, ids: set<Id>): (m: nat)
    requires ids <= documents.Keys
    ensures forall id | id in ids :: documents[id].version <= m
  {
    if ids == {} then 0
    else
      var id :| id in ids;
      var m := MaxVersion(documents, ids - {id});
      if documents[id].version > m then documents[id].version else m
  }

  /** Following supersededByDocumentId ends, at a document of the same logical document that nothing
      supersedes; every step of the way raises the version by one. */
  ghost function Current(db: Db, id: Id): (latest: Id)
    requires TablesSound(db) && id in db.documents
    ensures latest in db.documents && db.documents[latest].supersededBy.None?
    ensures db.documents[latest].logicalId == db.documents[id].logicalId
    ensures db.documents[latest].docType == db.documents[id].docType
    ensures db.documents[latest].subjectType == db.documents[id].subjectType
    ensures db.documents[latest].subjectId == db.documents[id].subjectId
    ensures db.documents[id].version <= db.documents[latest].version
    ensures latest == id <==> db.documents[id].supersededBy.None?
    decreases MaxVersion(db.documents, db.documents.Keys) - db.documents[id].version
  {
    assert DocumentSound(db, id);
    match db.documents[id].supersededBy
    case None => id
    case Some(next) => Current(db, next)
  }
}
