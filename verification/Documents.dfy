/** src/services/documents: documents, approval requests and the audit log, and the operations that
    change them together.

    Ids, digests, types and free text are compared for equality only, so numbers stand for them. What a
    transaction throws leaves the tables as they were. */
module Documents {
  import opened Tables
  import opened Rules

  type Id = nat
  type Digest = nat

  datatype ContentStatus = Draft | UnderReview | Approved | Superseded | Voided
  datatype ExecutionStatus = Unsigned | PartiallySigned | Executed
  datatype DeliveryStatus = NotSent | Queued | Sent | Delivered | DeliveryFailed

  datatype Document = Document(
    logicalId: Id, version: nat, docType: Name, subjectType: Name, subjectId: Name,
    generated: Option<Digest>, executed: Option<Digest>,
    content: ContentStatus, execution: ExecutionStatus, delivery: DeliveryStatus, supersededBy: Option<Id>)

  datatype Decision = DecidedApproved | DecidedRejected | Expired

  datatype Approval = Approval(
    documentId: Id, subjectType: Name, subjectId: Name, subjectVersion: nat, artifact: Digest,
    expiresAt: int, decision: Option<Decision>)

  datatype EventType =
    | DraftGenerated | ApprovalRequested | DocumentApproved | DocumentRejected
    | ExecutedCopyAttached | DeliveryRecorded(status: DeliveryStatus) | DocumentSuperseded

  // an audit event of aggregate type "document"; None stands for the empty hash
  datatype Event = Event(aggregateId: Id, version: nat, eventType: EventType, before: Option<Digest>,
                         after: Option<Digest>)

  datatype Db = Db(
    documents: map<Id, Document>, approvals: map<Id, Approval>, audit: seq<Event>, outbox: map<Id, Option<Id>>,
    facts: seq<Fact>, subjects: map<(Name, Name), bool>) // the subject rows, true if a required column is empty

  datatype Error = UserInputError | InvalidTransitionError | ExpertReviewRequiredError

  datatype Result = Result(db: Db, error: Option<Error>)

  function Fail(db: Db, error: Error): Result {
    Result(db, Some(error))
  }

  function Commit(db: Db): Result {
    Result(db, None)
  }

  const DEFAULT_EXPIRY_MS := 72 * 60 * 60 * 1000

  // ---------------------------------------------------------------- transition tables

  predicate ContentAllowed(from: ContentStatus, to: ContentStatus) {
    from == to ||
    match from
    case Draft => to == UnderReview || to == Voided
    case UnderReview => to == Approved || to == Draft || to == Voided
    case Approved => to == Superseded || to == Voided
    case Superseded => false
    case Voided => false
  }

  predicate ExecutionAllowed(from: ExecutionStatus, to: ExecutionStatus) {
    from == to ||
    match from
    case Unsigned => to == PartiallySigned || to == Executed
    case PartiallySigned => to == Executed
    case Executed => false
  }

  predicate DeliveryAllowed(from: DeliveryStatus, to: DeliveryStatus) {
    from == to ||
    match from
    case NotSent => to == Queued
    case Queued => to == Sent || to == DeliveryFailed
    case Sent => to == Delivered || to == DeliveryFailed
    case Delivered => false
    case DeliveryFailed => to == Queued
  }

  // ---------------------------------------------------------------- the operations on a snapshot of the tables

  datatype DraftInput = DraftInput(docType: Name, subjectType: Name, subjectId: Name, key: Id, digest: Digest)

  // the transaction of generateDocumentDraft, with its two new random ids
  function CommitDraft(db: Db, input: DraftInput, id: Id, logicalId: Id): Db {
    var document := Document(logicalId, 1, input.docType, input.subjectType, input.subjectId, Some(input.digest), None,
                             Draft, Unsigned, NotSent, None);
    db.(documents := db.documents[id := document],
        audit := db.audit + [Event(id, 1, DraftGenerated, None, Some(input.digest))],
        outbox := InsertIfAbsent(db.outbox, input.key, Some(id)))
  }

  // the document an idempotency key was already used for
  predicate AlreadyGenerated(db: Db, key: Id) {
    key in db.outbox && db.outbox[key].Some? && db.outbox[key].value in db.documents
    && db.documents[db.outbox[key].value].generated.Some?
  }

  // the key stands for this document, which has its digest
  ghost predicate KnownDocument(db: Db, key: Id, id: Id) {
    key in db.outbox && db.outbox[key] == Some(id) && id in db.documents && db.documents[id].generated != None
  }

  // a new document, column by column
  ghost predicate IsFirstDraft(d: Document, logicalId: Id, input: DraftInput) {
    && d.logicalId == logicalId && d.version == 1 && d.docType == input.docType
    && d.subjectType == input.subjectType && d.subjectId == input.subjectId && d.generated == Some(input.digest)
    && d.executed == None && d.content == Draft && d.execution == Unsigned && d.delivery == NotSent
    && d.supersededBy == None
  }

  function GenerateDraft(db: Db, input: DraftInput, supported: bool, id: Id, logicalId: Id): Result {
    if !supported then Fail(db, UserInputError)
    else if AlreadyGenerated(db, input.key) then Commit(db)
    else if (input.subjectType, input.subjectId) !in db.subjects then Fail(db, UserInputError)
    else Commit(CommitDraft(db, input, id, logicalId))
  }

  /** Generating a draft again under the same key changes nothing, exactly when the first call found the key free
      or standing for a generated document; under a key that anything else has taken every call makes a new one. */
  lemma DraftRetryIff(db: Db, input: DraftInput, id: Id, logicalId: Id, id': Id, logicalId': Id)
    requires id !in db.documents && GenerateDraft(db, input, true, id, logicalId).error.None?
    requires input.key in db.outbox && db.outbox[input.key].Some? ==> db.outbox[input.key].value != id
    ensures var once := GenerateDraft(db, input, true, id, logicalId).db;
            var twice := GenerateDraft(once, input, true, id', logicalId');
            twice.error.None? && (twice.db == once <==> input.key !in db.outbox || AlreadyGenerated(db, input.key))
  {
    var once := GenerateDraft(db, input, true, id, logicalId).db;
    var twice := GenerateDraft(once, input, true, id', logicalId').db;
    assert AlreadyGenerated(once, input.key) || |twice.audit| == |once.audit| + 1;
  }

  // UPDATE documents SET content_status = ... WHERE id = ...
  function SetContent(documents: map<Id, Document>, id: Id, content: ContentStatus): map<Id, Document> {
    if id in documents then documents[id := documents[id].(content := content)] else documents
  }

  // the transactions that change one document
  datatype Operation = ToRequest | ToAttach | ToDeliver(status: DeliveryStatus) | ToSupersede

  // what an operation checks on the row it has selected
  function Refusal(found: Document, op: Operation): Option<Error> {
    match op
    case ToRequest =>
      if found.generated.None? then Some(UserInputError)
      else if !ContentAllowed(found.content, UnderReview) then Some(InvalidTransitionError)
      else None
    case ToAttach =>
      if found.content != Approved then Some(UserInputError)
      else if !ExecutionAllowed(found.execution, Executed) then Some(InvalidTransitionError)
      else None
    case ToDeliver(status) =>
      if !DeliveryAllowed(found.delivery, status) then Some(InvalidTransitionError) else None
    case ToSupersede =>
      if !ContentAllowed(found.content, Superseded) then Some(InvalidTransitionError) else None
  }

  predicate Refused(db: Db, documentId: Id, op: Operation) {
    documentId !in db.documents || Refusal(db.documents[documentId], op).Some?
  }

  function Refuse(db: Db, documentId: Id, op: Operation): Result
    requires Refused(db, documentId, op)
  {
    if documentId !in db.documents then Fail(db, UserInputError)
    else Fail(db, Refusal(db.documents[documentId], op).value)
  }

  // Each write sets columns of the row as it is by then; everything else comes from the row as selected.
  function WriteRequest(db: Db, documentId: Id, found: Document, approvalId: Id, now: int): Db
    requires found.generated.Some?
  {
    var approval := Approval(documentId, found.subjectType, found.subjectId, found.version, found.generated.value,
                             now + DEFAULT_EXPIRY_MS, None);
    db.(approvals := db.approvals[approvalId := approval],
        documents := SetContent(db.documents, documentId, UnderReview),
        audit := db.audit + [Event(documentId, found.version, ApprovalRequested, None, found.generated)],
        outbox := InsertIfAbsent(db.outbox, approvalId, Some(approvalId)))
  }

  // a request for the document as it was found, column by column, to be decided within 72 hours
  ghost predicate IsRequestFor(a: Approval, documentId: Id, found: Document, now: int) {
    && a.documentId == documentId && a.subjectType == found.subjectType && a.subjectId == found.subjectId
    && a.subjectVersion == found.version && Some(a.artifact) == found.generated
    && a.expiresAt == now + 259_200_000 && a.decision == None
  }

  function RequestApproval(db: Db, documentId: Id, approvalId: Id, now: int): Result {
    if Refused(db, documentId, ToRequest) then Refuse(db, documentId, ToRequest)
    else Commit(WriteRequest(db, documentId, db.documents[documentId], approvalId, now))
  }

  // whether a mapping file is found for the document type or, failing that, the subject type
  type Mapping = (Name, Name) -> bool

  // the subject's row, if a mapping file asks for it and it is there
  function SubjectRow(db: Db, approval: Approval, found: Document, mapping: Mapping): Option<bool> {
    if mapping(found.docType, approval.subjectType) && (approval.subjectType, approval.subjectId) in db.subjects
    then Some(db.subjects[(approval.subjectType, approval.subjectId)])
    else None
  }

  predicate GateOpens(subject: Option<bool>, facts: seq<Fact>, approval: Approval) {
    subject.Some? ==> NoBlockingFindings(Evaluate(subject.value, facts, approval.subjectType, approval.subjectId))
  }

  predicate GatePasses(db: Db, approval: Approval, found: Document, mapping: Mapping) {
    GateOpens(SubjectRow(db, approval, found, mapping), db.facts, approval)
  }

  function Target(approve: bool): ContentStatus {
    if approve then Approved else Draft
  }

  function WriteDecision(db: Db, approvalId: Id, approval: Approval, found: Document, approve: bool): Db {
    db.(approvals := SetDecision(db.approvals, approvalId, if approve then DecidedApproved else DecidedRejected),
        documents := SetContent(db.documents, approval.documentId, Target(approve)),
        audit := db.audit + [Event(approval.documentId, found.version,
                                   if approve then DocumentApproved else DocumentRejected, None, found.generated)])
  }

  // The locked decision transaction of approveDocument, for the request `approval` read before it began.
  function Decide(db: Db, approvalId: Id, approval: Approval, approve: bool, mapping: Mapping): Result {
    if approvalId in db.approvals && db.approvals[approvalId].decision.Some? then Fail(db, InvalidTransitionError)
    else if approval.documentId !in db.documents then Fail(db, UserInputError)
    else
      var found := db.documents[approval.documentId];
      if approve && !GatePasses(db, approval, found, mapping) then Fail(db, ExpertReviewRequiredError)
      else if !ContentAllowed(found.content, Target(approve)) then Fail(db, InvalidTransitionError)
      else Commit(WriteDecision(db, approvalId, approval, found, approve))
  }

  // only the decision of the request has changed
  ghost predicate VoidedAs(before: Db, after: Db, approvalId: Id, decision: Decision)
    requires approvalId in before.approvals
  {
    var voided := before.approvals[approvalId].(decision := Some(decision));
    after == before.(approvals := before.approvals[approvalId := voided])
  }

  // a mapping file asks for the subject's row, and it is there
  ghost predicate SubjectIsThere(db: Db, approval: Approval, found: Document, mapping: Mapping) {
    mapping(found.docType, approval.subjectType) && (approval.subjectType, approval.subjectId) in db.subjects
  }

  // what the locked transaction must make of the tables it finds
  ghost predicate RightlyDecided(before: Db, after: Db, error: Option<Error>, approvalId: Id, approval: Approval,
                                 approve: bool, mapping: Mapping)
  {
    if approvalId in before.approvals && before.approvals[approvalId].decision != None then
      error == Some(InvalidTransitionError) && after == before
    else if approval.documentId !in before.documents then
      error == Some(UserInputError) && after == before
    else
      var found := before.documents[approval.documentId];
      if approve && SubjectIsThere(before, approval, found, mapping)
         && !Healthy(before.facts, approval.subjectType, approval.subjectId)
      then error == Some(ExpertReviewRequiredError) && after == before
      else if approve && found.content !in {UnderReview, Approved} then
        error == Some(InvalidTransitionError) && after == before
      else if !approve && found.content !in {UnderReview, Draft} then
        error == Some(InvalidTransitionError) && after == before
      else
        && error == None && DecisionWritten(before, after, approvalId, approval.documentId, approve)
        && (approve && SubjectIsThere(before, approval, found, mapping) ==>
              Healthy(before.facts, approval.subjectType, approval.subjectId))
  }

  // the three writes of a decision
  ghost predicate DecisionWritten(before: Db, after: Db, approvalId: Id, documentId: Id, approve: bool)
    requires documentId in before.documents
  {
    var found := before.documents[documentId];
    && after.documents == before.documents[documentId := found.(content := if approve then Approved else Draft)]
    && after.audit == before.audit + [Event(documentId, found.version,
                                            if approve then DocumentApproved else DocumentRejected, None,
                                            found.generated)]
    && after.approvals.Keys == before.approvals.Keys
    && (forall a | a in before.approvals ::
          after.approvals[a] == if a != approvalId then before.approvals[a]
                                else before.approvals[a].(decision := Some(if approve then DecidedApproved
                                                                           else DecidedRejected)))
    && after.outbox == before.outbox && after.facts == before.facts && after.subjects == before.subjects
  }

  // UPDATE approval_requests SET decision = ... WHERE id = ...
  function SetDecision(approvals: map<Id, Approval>, id: Id, decision: Decision): map<Id, Approval> {
    if id in approvals then approvals[id := approvals[id].(decision := Some(decision))] else approvals
  }

  function WriteVoid(db: Db, approvalId: Id, decision: Decision): Db {
    db.(approvals := SetDecision(db.approvals, approvalId, decision))
  }

  function ApproveDocument(db: Db, approvalId: Id, approve: bool, now: int, mapping: Mapping): Result {
    if approvalId !in db.approvals then Fail(db, UserInputError)
    else
      var approval := db.approvals[approvalId];
      if approval.decision.Some? then Fail(db, InvalidTransitionError)
      else if approval.expiresAt < now then Fail(WriteVoid(db, approvalId, Expired), InvalidTransitionError)
      else if approval.documentId !in db.documents then Fail(db, UserInputError)
      else if db.documents[approval.documentId].generated != Some(approval.artifact) then
        Fail(WriteVoid(db, approvalId, DecidedRejected), InvalidTransitionError)
      else Decide(db, approvalId, approval, approve, mapping)
  }

  function WriteExecuted(db: Db, documentId: Id, found: Document, digest: Digest): Db {
    db.(documents := if documentId !in db.documents then db.documents
                     else db.documents[documentId := db.documents[documentId].(executed := Some(digest),
                                                                               execution := Executed)],
        audit := db.audit + [Event(documentId, found.version, ExecutedCopyAttached, None, Some(digest))])
  }

  function AttachExecutedCopy(db: Db, documentId: Id, digest: Digest): Result {
    if Refused(db, documentId, ToAttach) then Refuse(db, documentId, ToAttach)
    else Commit(WriteExecuted(db, documentId, db.documents[documentId], digest))
  }

  function WriteDelivery(db: Db, documentId: Id, found: Document, status: DeliveryStatus): Db {
    db.(documents := if documentId !in db.documents then db.documents
                     else db.documents[documentId := db.documents[documentId].(delivery := status)],
        audit := db.audit + [Event(documentId, found.version, DeliveryRecorded(status), None,
                                   if found.executed.Some? then found.executed else found.generated)])
  }

  function RecordDelivery(db: Db, documentId: Id, status: DeliveryStatus): Result {
    if Refused(db, documentId, ToDeliver(status)) then Refuse(db, documentId, ToDeliver(status))
    else Commit(WriteDelivery(db, documentId, db.documents[documentId], status))
  }

  // the row inserted for the next version
  function Corrected(found: Document, digest: Digest): Document {
    Document(found.logicalId, found.version + 1, found.docType, found.subjectType, found.subjectId, Some(digest), None,
             Draft, Unsigned, NotSent, None)
  }

  // the next version of a document, column by column
  ghost predicate IsNextVersion(next: Document, found: Document, digest: Digest) {
    && next.logicalId == found.logicalId && next.version == found.version + 1 && next.docType == found.docType
    && next.subjectType == found.subjectType && next.subjectId == found.subjectId && next.generated == Some(digest)
    && next.executed == None && next.content == Draft && next.execution == Unsigned && next.delivery == NotSent
    && next.supersededBy == None
  }

  // the next version is there, the old row is retired and linked to it, and both events are appended
  ghost predicate SupersededAs(before: Db, after: Db, documentId: Id, newId: Id, digest: Digest)
    requires documentId in before.documents && newId !in before.documents
  {
    var found := before.documents[documentId];
    && newId in after.documents && IsNextVersion(after.documents[newId], found, digest)
    && after == before.(
      documents := before.documents[newId := after.documents[newId]]
                                   [documentId := found.(content := Superseded, supersededBy := Some(newId))],
      audit := before.audit + [Event(documentId, found.version, DocumentSuperseded, found.generated, Some(digest)),
                               Event(newId, found.version + 1, DraftGenerated, None, Some(digest))])
  }

  function SetSuperseded(documents: map<Id, Document>, id: Id, newId: Id): map<Id, Document> {
    if id !in documents then documents
    else documents[id := documents[id].(content := Superseded, supersededBy := Some(newId))]
  }

  function WriteSuperseded(db: Db, documentId: Id, found: Document, digest: Digest, newId: Id): Db {
    db.(documents := SetSuperseded(db.documents[newId := Corrected(found, digest)], documentId, newId),
        audit := db.audit + [Event(documentId, found.version, DocumentSuperseded, found.generated, Some(digest)),
                             Event(newId, found.version + 1, DraftGenerated, None, Some(digest))])
  }

  function SupersedeDocument(db: Db, documentId: Id, reasonGiven: bool, digest: Digest, newId: Id): Result {
    if !reasonGiven then Fail(db, UserInputError)
    else if Refused(db, documentId, ToSupersede) then Refuse(db, documentId, ToSupersede)
    else Commit(WriteSuperseded(db, documentId, db.documents[documentId], digest, newId))
  }

  // ---------------------------------------------------------------- the services, statement by statement

  class DocumentService {
    var documents: map<Id, Document>
    var approvals: map<Id, Approval>
    var audit: seq<Event>
    var outbox: map<Id, Option<Id>>
    var facts: seq<Fact>
    var subjects: map<(Name, Name), bool>

    constructor ()
      ensures Tables() == Db(map[], map[], [], map[], [], map[])
    {
      documents, approvals, audit, outbox, facts, subjects := map[], map[], [], map[], [], map[];
    }

    ghost function Tables(): Db
      reads this
    {
      Db(documents, approvals, audit, outbox, facts, subjects)
    }

    method AppendAuditEvent(event: Event)
      modifies this`audit
      ensures audit == old(audit) + [event]
    {
      audit := audit + [event];
    }

    method EnqueueOutboxEvent(key: Id, reference: Id)
      modifies this`outbox
      ensures outbox == InsertIfAbsent(old(outbox), key, Some(reference))
    {
      if key !in outbox {
        outbox := outbox[key := Some(reference)];
      }
    }

    method GenerateDocumentDraft(input: DraftInput, supported: bool, id: Id, logicalId: Id)
      returns (error: Option<Error>, documentId: Id)
      modifies this
      ensures Result(Tables(), error) == GenerateDraft(old(Tables()), input, supported, id, logicalId)
      ensures !supported ==> error == Some(UserInputError)
      ensures supported && KnownDocument(old(Tables()), input.key, documentId) ==>
                error == None && Tables() == old(Tables())
      ensures supported && error == None ==> documentId == id || KnownDocument(old(Tables()), input.key, documentId)
      ensures supported && (forall known :: !KnownDocument(old(Tables()), input.key, known)) ==>
                error == if (input.subjectType, input.subjectId) in subjects then None else Some(UserInputError)
      ensures error.Some? ==> Tables() == old(Tables())
      ensures supported && error == None && (forall known :: !KnownDocument(old(Tables()), input.key, known)) ==>
                && documentId == id && id in documents && IsFirstDraft(documents[id], logicalId, input)
                && documents == old(documents)[id := documents[id]] && approvals == old(approvals)
                && audit == old(audit) + [Event(id, 1, DraftGenerated, None, Some(input.digest))]
                && outbox == if input.key in old(outbox) then old(outbox) else old(outbox)[input.key := Some(id)]
      ensures facts == old(facts) && subjects == old(subjects)
    {
      documentId := id;
      if !supported {
        return Some(UserInputError), id;
      }
      if input.key in outbox && outbox[input.key].Some? {
        var existing := outbox[input.key].value;
        if existing in documents && documents[existing].generated.Some? {
          return None, existing;
        }
      }
      if (input.subjectType, input.subjectId) !in subjects {
        return Some(UserInputError), id;
      }
      documents := documents[id := Document(logicalId, 1, input.docType, input.subjectType, input.subjectId,
                                            Some(input.digest), None, Draft, Unsigned, NotSent, None)];
      AppendAuditEvent(Event(id, 1, DraftGenerated, None, Some(input.digest)));
      EnqueueOutboxEvent(input.key, id);
      error := None;
    }

    method RequestDocumentApproval(documentId: Id, approvalId: Id, now: int) returns (error: Option<Error>)
      modifies this
      ensures Result(Tables(), error) == RequestApproval(old(Tables()), documentId, approvalId, now)
      ensures error == Some(UserInputError)
              <==> documentId !in old(documents) || old(documents)[documentId].generated == None
      ensures error == Some(InvalidTransitionError)
              <==> documentId in old(documents) && old(documents)[documentId].generated != None
                   && old(documents)[documentId].content !in {Draft, UnderReview}
      ensures error == Some(UserInputError) || error == Some(InvalidTransitionError) || error == None
      ensures error.Some? ==> Tables() == old(Tables())
      ensures error == None ==>
                var found := old(documents)[documentId];
                && approvalId in approvals && IsRequestFor(approvals[approvalId], documentId, found, now)
                && approvals == old(approvals)[approvalId := approvals[approvalId]]
                && documents == old(documents)[documentId := found.(content := UnderReview)]
                && audit == old(audit) + [Event(documentId, found.version, ApprovalRequested, None, found.generated)]
                && outbox == if approvalId in old(outbox) then old(outbox)
                             else old(outbox)[approvalId := Some(approvalId)]
      ensures facts == old(facts) && subjects == old(subjects)
    {
      if documentId !in documents {
        return Some(UserInputError);
      }
      var document := documents[documentId];
      if document.generated.None? {
        return Some(UserInputError);
      }
      if !ContentAllowed(document.content, UnderReview) {
        return Some(InvalidTransitionError);
      }
      var expiresAt := now + DEFAULT_EXPIRY_MS;
      approvals := approvals[approvalId := Approval(documentId, document.subjectType, document.subjectId,
                                                    document.version, document.generated.value, expiresAt, None)];
      documents := SetContent(documents, documentId, UnderReview);
      AppendAuditEvent(Event(documentId, document.version, ApprovalRequested, None, document.generated));
      EnqueueOutboxEvent(approvalId, approvalId);
      error := None;
    }

    method Approve(approvalId: Id, approve: bool, now: int, mapping: Mapping) returns (error: Option<Error>)
      modifies this
      ensures Result(Tables(), error) == ApproveDocument(old(Tables()), approvalId, approve, now, mapping)
      ensures approvalId !in old(approvals) ==> error == Some(UserInputError) && Tables() == old(Tables())
      ensures approvalId in old(approvals) && old(approvals)[approvalId].decision.Some? ==>
                error == Some(InvalidTransitionError) && Tables() == old(Tables())
      ensures approvalId in old(approvals) && old(approvals)[approvalId].decision.None? ==>
                var a := old(approvals)[approvalId];
                if a.expiresAt < now then
                  && error == Some(InvalidTransitionError)
                  && VoidedAs(old(Tables()), Tables(), approvalId, Expired)
                else if a.documentId !in old(documents) then
                  error == Some(UserInputError) && Tables() == old(Tables())
                else if old(documents)[a.documentId].generated != Some(a.artifact) then
                  && error == Some(InvalidTransitionError)
                  && VoidedAs(old(Tables()), Tables(), approvalId, DecidedRejected)
                else
                  RightlyDecided(old(Tables()), Tables(), error, approvalId, a, approve, mapping)
    {
      if approvalId !in approvals {
        return Some(UserInputError);
      }
      var approval := approvals[approvalId];
      if approval.decision.Some? {
        return Some(InvalidTransitionError);
      }
      if approval.expiresAt < now {
        approvals := approvals[approvalId := approvals[approvalId].(decision := Some(Expired))];
        return Some(InvalidTransitionError);
      }
      if approval.documentId !in documents {
        return Some(UserInputError);
      }
      if documents[approval.documentId].generated != Some(approval.artifact) {
        approvals := approvals[approvalId := approvals[approvalId].(decision := Some(DecidedRejected))];
        return Some(InvalidTransitionError);
      }
      error := DecideLocked(approvalId, approval, approve, mapping);
    }

    method DecideLocked(approvalId: Id, approval: Approval, approve: bool, mapping: Mapping)
      returns (error: Option<Error>)
      modifies this
      ensures Result(Tables(), error) == Decide(old(Tables()), approvalId, approval, approve, mapping)
      ensures RightlyDecided(old(Tables()), Tables(), error, approvalId, approval, approve, mapping)
      ensures error == Some(ExpertReviewRequiredError)
              <==> && !(approvalId in old(approvals) && old(approvals)[approvalId].decision != None)
                   && approval.documentId in old(documents) && approve
                   && mapping(old(documents)[approval.documentId].docType, approval.subjectType)
                   && (approval.subjectType, approval.subjectId) in subjects
                   && !Healthy(facts, approval.subjectType, approval.subjectId)
    {
      if approvalId in approvals && approvals[approvalId].decision.Some? {
        return Some(InvalidTransitionError);
      }
      if approval.documentId !in documents {
        return Some(UserInputError);
      }
      var document := documents[approval.documentId];
      if approve {
        if mapping(document.docType, approval.subjectType) {
          if (approval.subjectType, approval.subjectId) in subjects {
            var health := CheckFactAssertionHealth(facts, approval.subjectType, approval.subjectId);
            var missing := subjects[(approval.subjectType, approval.subjectId)];
            GateIffHealthy(missing, facts, approval.subjectType, approval.subjectId);
            if !NoBlockingFindings((if missing then [RequiredFields] else []) + health) {
              return Some(ExpertReviewRequiredError);
            }
          }
        }
        if !ContentAllowed(document.content, Approved) {
          return Some(InvalidTransitionError);
        }
        approvals := SetDecision(approvals, approvalId, DecidedApproved);
        documents := SetContent(documents, approval.documentId, Approved);
        AppendAuditEvent(Event(approval.documentId, document.version, DocumentApproved, None, document.generated));
        return None;
      }
      if !ContentAllowed(document.content, Draft) {
        return Some(InvalidTransitionError); // the decision written just before is rolled back
      }
      approvals := SetDecision(approvals, approvalId, DecidedRejected);
      documents := SetContent(documents, approval.documentId, Draft);
      AppendAuditEvent(Event(approval.documentId, document.version, DocumentRejected, None, document.generated));
      error := None;
    }

    method AttachExecuted(documentId: Id, digest: Digest) returns (error: Option<Error>)
      modifies this
      ensures Result(Tables(), error) == AttachExecutedCopy(old(Tables()), documentId, digest)
      ensures if documentId !in old(documents) || old(documents)[documentId].content != Approved
              then error == Some(UserInputError) && Tables() == old(Tables())
              else
                var found := old(documents)[documentId];
                && error == None
                && Tables() == old(Tables()).(
                  documents := old(documents)[documentId := found.(executed := Some(digest), execution := Executed)],
                  audit := old(audit) + [Event(documentId, found.version, ExecutedCopyAttached, None, Some(digest))])
    {
      if documentId !in documents {
        return Some(UserInputError);
      }
      var document := documents[documentId];
      if document.content != Approved {
        return Some(UserInputError);
      }
      if !ExecutionAllowed(document.execution, Executed) {
        return Some(InvalidTransitionError);
      }
      documents := documents[documentId := documents[documentId].(executed := Some(digest), execution := Executed)];
      AppendAuditEvent(Event(documentId, document.version, ExecutedCopyAttached, None, Some(digest)));
      error := None;
    }

    method Deliver(documentId: Id, status: DeliveryStatus) returns (error: Option<Error>)
      modifies this
      ensures Result(Tables(), error) == RecordDelivery(old(Tables()), documentId, status)
      ensures if documentId !in old(documents) then error == Some(UserInputError) && Tables() == old(Tables())
              else
                var found := old(documents)[documentId];
                if found.delivery != status && (found.delivery, status) !in {
                  (NotSent, Queued), (Queued, Sent), (Queued, DeliveryFailed), (Sent, Delivered),
                  (Sent, DeliveryFailed), (DeliveryFailed, Queued)}
                then error == Some(InvalidTransitionError) && Tables() == old(Tables())
                else
                  && error == None
                  && Tables() == old(Tables()).(
                    documents := old(documents)[documentId := found.(delivery := status)],
                    audit := old(audit) + [Event(documentId, found.version, DeliveryRecorded(status), None,
                                                 if found.executed != None then found.executed
                                                 else found.generated)])
    {
      if documentId !in documents {
        return Some(UserInputError);
      }
      var document := documents[documentId];
      if !DeliveryAllowed(document.delivery, status) {
        return Some(InvalidTransitionError);
      }
      documents := documents[documentId := documents[documentId].(delivery := status)];
      AppendAuditEvent(Event(documentId, document.version, DeliveryRecorded(status), None,
                             if document.executed.Some? then document.executed else document.generated));
      error := None;
    }

    method Supersede(documentId: Id, reasonGiven: bool, digest: Digest, newId: Id) returns (error: Option<Error>)
      modifies this
      ensures Result(Tables(), error) == SupersedeDocument(old(Tables()), documentId, reasonGiven, digest, newId)
      ensures if !reasonGiven || documentId !in old(documents)
              then error == Some(UserInputError) && Tables() == old(Tables())
              else if old(documents)[documentId].content !in {Approved, Superseded}
              then error == Some(InvalidTransitionError) && Tables() == old(Tables())
              else
                && error == None
                && (newId !in old(documents) ==>
                      SupersededAs(old(Tables()), Tables(), documentId, newId, digest))
    {
      if !reasonGiven || documentId !in documents {
        return Some(UserInputError);
      }
      var document := documents[documentId];
      if !ContentAllowed(document.content, Superseded) {
        return Some(InvalidTransitionError);
      }
      var newVersion := document.version + 1;
      documents := documents[newId := Document(document.logicalId, newVersion, document.docType, document.subjectType,
                                               document.subjectId, Some(digest), None, Draft, Unsigned, NotSent,
                                               None)];
      documents := SetSuperseded(documents, documentId, newId);
      AppendAuditEvent(Event(documentId, document.version, DocumentSuperseded, document.generated, Some(digest)));
      AppendAuditEvent(Event(newId, newVersion, DraftGenerated, None, Some(digest)));
      error := None;
    }
  }
}
