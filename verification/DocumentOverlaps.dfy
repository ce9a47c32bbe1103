/** Runs from empty tables in which calls overlap on one document: a recorded decision is overwritten, a superseded
    document becomes approved again, and an executed one a draft. */
module DocumentOverlaps {
  import opened Tables
  import opened Rules
  import opened Documents
  import opened DocumentRuns

  ghost predicate Reachable(s: State, mapping: Mapping) {
    exists states: seq<State>, steps: seq<Step> :: IsRun(states, steps, mapping) && states[|steps|] == s
  }

  lemma ReachableNext(s: State, step: Step, mapping: Mapping, next: State)
    requires Reachable(s, mapping) && Enabled(s, step, mapping) && DocumentRuns.Next(s, step, mapping) == next
    ensures Reachable(next, mapping)
  {
    hide DocumentRuns.Next, Enabled, Initial;
    var states: seq<State>, steps: seq<Step> :| IsRun(states, steps, mapping) && states[|steps|] == s;
    var longer, more := states + [next], steps + [step];
    assert longer[0] == states[0];
    assert IsRun(longer, more, mapping) && longer[|more|] == next;
  }

  // no type of document is checked against facts
  function NoMapping(): Mapping {
    (docType, subjectType) => false
  }

  const EXPIRY := DEFAULT_EXPIRY_MS
  const LATE := EXPIRY + 1

  // ---------------------------------------------------------------- one document and requests for it

  // document 0, of digest 7
  function Doc(content: ContentStatus): Document {
    Document(0, 1, 0, 0, 0, Some(7), None, content, Unsigned, NotSent, None)
  }

  function Request(decision: Option<Decision>): Approval {
    Approval(0, 0, 0, 1, 7, EXPIRY, decision)
  }

  function EventOf(eventType: EventType): Event {
    Event(0, 1, eventType, None, Some(7))
  }

  // requests 0 and 1 for document 0
  function Db0(document: Document, zero: Option<Decision>, one: Option<Decision>, audit: seq<Event>): Db {
    Db(map[0 := document], map[0 := Request(zero), 1 := Request(one)], audit,
       map[10 := Some(0), 0 := Some(0), 1 := Some(1)], [], map[(0, 0) := false])
  }

  const ASKED := [EventOf(DraftGenerated), EventOf(ApprovalRequested), EventOf(ApprovalRequested)]

  function Asked(now: int, calls: map<CallId, Call>): State {
    State(Db0(Doc(UnderReview), None, None, ASKED), now, calls, [])
  }

  lemma EmptyReachable(empty: State)
    requires Initial(empty)
    ensures Reachable(empty, NoMapping())
  {
    assert IsRun([empty], [], NoMapping()) && [empty][0] == empty;
  }

  function Drafted(content: ContentStatus, approvals: map<Id, Approval>, audit: seq<Event>, outbox: map<Id, Option<Id>>,
                   calls: map<CallId, Call>): State {
    State(Db(map[0 := Doc(content)], approvals, audit, outbox, [], map[(0, 0) := false]), 0, calls, [])
  }

  lemma DraftReachable()
    ensures Reachable(Drafted(Draft, map[], [EventOf(DraftGenerated)], map[10 := Some(0)], map[]), NoMapping())
  {
    hide Reachable;
    var empty := State(Db(map[], map[], [], map[], [], map[(0, 0) := false]), 0, map[], []);
    EmptyReachable(empty);
    ReachableNext(empty, DraftStep(DraftInput(0, 0, 0, 10, 7), 0, 0), NoMapping(),
                  Drafted(Draft, map[], [EventOf(DraftGenerated)], map[10 := Some(0)], map[]));
  }

  // two requests are made, one after the other
  lemma AskedReachable()
    ensures Reachable(Asked(0, map[]), NoMapping())
  {
    hide Reachable;
    DraftReachable();
    var one := Drafted(UnderReview, map[0 := Request(None)], ASKED[..2], map[10 := Some(0), 0 := Some(0)], map[]);
    RequestReachable(Drafted(Draft, map[], [EventOf(DraftGenerated)], map[10 := Some(0)], map[]), 0, one);
    RequestReachable(one, 1, Asked(0, map[]));
  }

  lemma RequestReachable(s: State, approvalId: Id, next: State)
    requires Reachable(s, NoMapping()) && s.calls == map[] && s.now == 0 && 0 in s.db.documents
    requires Refusal(s.db.documents[0], ToRequest).None? && approvalId !in s.db.approvals
    requires next == s.(db := WriteRequest(s.db, 0, s.db.documents[0], approvalId, 0))
    ensures Reachable(next, NoMapping())
  {
    hide Reachable, WriteRequest;
    var selected := s.(calls := map[0 := Changing(ToRequest, 0, s.db.documents[0], 0)]);
    ReachableNext(s, SelectStep(0, ToRequest, 0), NoMapping(), selected);
    ReachableNext(selected, RequestStep(0, approvalId, 0), NoMapping(), next);
  }

  // ---------------------------------------------------------------- a call of approveDocument up to its decision

  // some call has read its request and the document in time
  lemma CheckedReachable(s: State, call: CallId, approvalId: Id, approve: bool)
    requires Reachable(s, NoMapping()) && call !in s.calls && s.now == 0
    requires approvalId in s.db.approvals && s.db.approvals[approvalId] == Request(None)
    requires 0 in s.db.documents && s.db.documents[0].generated == Some(7)
    ensures Reachable(s.(calls := s.calls[call := Approving(approvalId, approve, Checked(Request(None)))]), NoMapping())
  {
    hide Reachable;
    var entered := s.(calls := s.calls[call := Approving(approvalId, approve, Entered)]);
    var fetched := s.(calls := s.calls[call := Approving(approvalId, approve, Fetched(Request(None)))]);
    var loaded := s.(calls := s.calls[call := Approving(approvalId, approve, Loaded(Request(None)))]);
    var checked := s.(calls := s.calls[call := Approving(approvalId, approve, Checked(Request(None)))]);
    ReachableNext(s, StartCall(call, approvalId, approve), NoMapping(), entered);
    ReachableNext(entered, ReadApproval(call), NoMapping(), fetched);
    ReachableNext(fetched, CheckExpiry(call), NoMapping(), loaded);
    ReachableNext(loaded, ReadDocument(call), NoMapping(), checked);
  }

  // the same call has locked the request, selected the document and passed the gate
  lemma PassedReachable(s: State, call: CallId, approvalId: Id, approve: bool)
    requires call in s.calls && s.calls[call] == Approving(approvalId, approve, Checked(Request(None)))
    requires Reachable(s, NoMapping()) && LockFree(s, approvalId)
    requires approvalId in s.db.approvals && s.db.approvals[approvalId] == Request(None) && 0 in s.db.documents
    ensures Reachable(s.(calls := s.calls[call := Approving(approvalId, approve, Through(s.db.documents[0], s.db))]),
                      NoMapping())
  {
    hide Reachable;
    var selected := s.(calls := s.calls[call := Approving(approvalId, approve,
                                                          Selected(Request(None), s.db.documents[0]))]);
    var resolved := s.(calls := s.calls[call := Approving(approvalId, approve,
                                                          Resolved(Request(None), s.db.documents[0], None))]);
    ReachableNext(s, SelectToDecide(call), NoMapping(), selected);
    ReachableNext(selected, ReadSubject(call), NoMapping(), resolved);
    ReachableNext(resolved, PassGate(call), NoMapping(),
                  s.(calls := s.calls[call := Approving(approvalId, approve, Through(s.db.documents[0], s.db))]));
  }

  // the gate passed on the facts of these tables, without a subject to look at
  function Through(found: Document, db: Db): Phase {
    Passed(Request(None), found, None, db.facts)
  }

  const APPROVED := Db0(Doc(Approved), Some(DecidedApproved), None, ASKED + [EventOf(DocumentApproved)])

  // request 0 is approved by call 0
  function Approved0(now: int, calls: map<CallId, Call>): State {
    State(APPROVED, now, calls, [Decided(0, true, 3, None, [])])
  }

  lemma ApproveReachable(now: int, others: map<CallId, Call>)
    requires 0 !in others && (forall c | c in others :: !HoldsLock(others[c], 0))
    requires Reachable(Asked(now, others[0 := Approving(0, true, Checked(Request(None)))]), NoMapping())
    ensures Reachable(Approved0(now, others), NoMapping())
  {
    hide Reachable;
    var checked := Asked(now, others[0 := Approving(0, true, Checked(Request(None)))]);
    PassedReachable(checked, 0, 0, true);
    var passed := Asked(now, others[0 := Approving(0, true, Through(Doc(UnderReview), checked.db))]);
    assert checked.calls[0 := passed.calls[0]] == passed.calls;
    DecideReachable(now, others);
  }

  lemma DecideReachable(now: int, others: map<CallId, Call>)
    requires 0 !in others
    requires Reachable(Asked(now, others[0 := Approving(0, true, Through(Doc(UnderReview),
                                                                         Asked(now, others).db))]), NoMapping())
    ensures Reachable(Approved0(now, others), NoMapping())
  {
    hide Reachable, GateOpens, SubjectRow, LockFree, MayWrite, Written;
    var passed := Asked(now, others[0 := Approving(0, true, Through(Doc(UnderReview),
                                                                    Asked(now, others).db))]);
    assert passed.calls - {0} == others;
    ReachableNext(passed, DecideStep(0), NoMapping(), Approved0(now, others));
  }

  // ---------------------------------------------------------------- expired over approved

  // call 0 checked in time, and call 1 reads the same request just after its expiry
  lemma LateReachable()
    ensures Reachable(Asked(LATE, map[0 := Approving(0, true, Checked(Request(None))),
                                      1 := Approving(0, true, MustExpire)]), NoMapping())
  {
    hide Reachable;
    AskedReachable();
    CheckedReachable(Asked(0, map[]), 0, 0, true);
    var first := Approving(0, true, Checked(Request(None)));
    assert map[][0 := first] == map[0 := first];
    ReachableNext(Asked(0, map[0 := first]), Tick(LATE), NoMapping(), Asked(LATE, map[0 := first]));
    var entered := Asked(LATE, map[0 := first, 1 := Approving(0, true, Entered)]);
    ReachableNext(Asked(LATE, map[0 := first]), StartCall(1, 0, true), NoMapping(), entered);
    var fetched := Asked(LATE, map[0 := first, 1 := Approving(0, true, Fetched(Request(None)))]);
    ReachableNext(entered, ReadApproval(1), NoMapping(), fetched);
    ReachableNext(fetched, CheckExpiry(1), NoMapping(),
                  Asked(LATE, map[0 := first, 1 := Approving(0, true, MustExpire)]));
  }

  /** One call reads its request in time, the other too late; the first approves, and then the second writes
      "expired" over "approved". The document stays approved. */
  lemma ApprovedThenExpired() returns (approved: State, next: State)
    ensures Reachable(approved, NoMapping()) && Enabled(approved, WriteExpired(1), NoMapping())
    ensures 0 in approved.db.approvals && approved.db.approvals[0].decision == Some(DecidedApproved)
    ensures next == DocumentRuns.Next(approved, WriteExpired(1), NoMapping())
    ensures 0 in next.db.approvals && next.db.approvals[0].decision == Some(Expired)
    ensures 0 in next.db.documents && next.db.documents[0].content == Approved
  {
    hide Reachable;
    LateReachable();
    var others := map[1 := Approving(0, true, MustExpire)];
    var first := Approving(0, true, Checked(Request(None)));
    assert others[0 := first] == map[0 := first, 1 := Approving(0, true, MustExpire)];
    ApproveReachable(LATE, others);
    approved := Approved0(LATE, others);
    next := DocumentRuns.Next(approved, WriteExpired(1), NoMapping());
  }

  // ---------------------------------------------------------------- approved over superseded

  // call 1 has checked request 1 while call 0 approves request 0
  lemma BothChecked(approve: bool)
    ensures Reachable(Asked(0, map[0 := Approving(0, true, Checked(Request(None))),
                                   1 := Approving(1, approve, Checked(Request(None)))]), NoMapping())
  {
    hide Reachable;
    AskedReachable();
    CheckedReachable(Asked(0, map[]), 0, 0, true);
    var first, second := Approving(0, true, Checked(Request(None))), Approving(1, approve, Checked(Request(None)));
    assert map[][0 := first] == map[0 := first];
    CheckedReachable(Asked(0, map[0 := first]), 1, 1, approve);
    assert map[0 := first][1 := second] == map[0 := first, 1 := second];
  }

  // the first approval has committed, and the second has then selected the approved document
  lemma SecondSelects() returns (s: State)
    ensures Reachable(s, NoMapping()) && s.now == 0 && s.db == APPROVED
    ensures s.calls == map[1 := Approving(1, true, Through(Doc(Approved), s.db))]
  {
    hide Reachable;
    BothChecked(true);
    var first, second := Approving(0, true, Checked(Request(None))), Approving(1, true, Checked(Request(None)));
    assert map[1 := second][0 := first] == map[0 := first, 1 := second];
    ApproveReachable(0, map[1 := second]);
    var approved := Approved0(0, map[1 := second]);
    PassedReachable(approved, 1, 1, true);
    s := approved.(calls := map[1 := Approving(1, true, Through(Doc(Approved), approved.db))]);
    assert approved.calls[1 := s.calls[1]] == s.calls;
  }

  lemma SupersedeReachable(s: State, next: State)
    requires Reachable(s, NoMapping()) && s.db == APPROVED && 2 !in s.calls && s.now == 0
    requires next == s.(db := WriteSuperseded(s.db, 0, Doc(Approved), 8, 1))
    ensures Reachable(next, NoMapping())
  {
    hide Reachable, WriteSuperseded, GateOpens, SubjectRow, LockFree;
    var two := s.(calls := s.calls[2 := Changing(ToSupersede, 0, Doc(Approved), 0)]);
    ReachableNext(s, SelectStep(2, ToSupersede, 0), NoMapping(), two);
    assert two.calls - {2} == s.calls;
    ReachableNext(two, SupersedeStep(2, 8, 1), NoMapping(), next);
  }

  /** Two approvals of one document, on two requests: the second selects the document when the first has approved it, a
      correction then supersedes it, and the second approval writes "approved" over "superseded". */
  lemma SupersededThenApproved() returns (superseded: State, next: State)
    ensures Reachable(superseded, NoMapping()) && 0 in superseded.db.documents
    ensures superseded.db.documents[0].content == Superseded
    ensures Enabled(superseded, DecideStep(1), NoMapping())
    ensures next == DocumentRuns.Next(superseded, DecideStep(1), NoMapping()) && 0 in next.db.documents
    ensures next.db.documents[0].content == Approved && next.db.documents[0].supersededBy == Some(1)
  {
    hide Reachable;
    var s := SecondSelects();
    superseded := s.(db := WriteSuperseded(s.db, 0, Doc(Approved), 8, 1));
    SupersedeReachable(s, superseded);
    next := DocumentRuns.Next(superseded, DecideStep(1), NoMapping());
  }

  // ---------------------------------------------------------------- draft over executed

  // a rejection on request 1 has selected the document under review, and then request 0 is approved
  lemma RejectionSelects() returns (s: State)
    ensures Reachable(s, NoMapping()) && s.now == 0 && s.db == APPROVED
    ensures 1 in s.calls && s.calls.Keys == {1} && s.calls[1].Approving? && s.calls[1].approvalId == 1
    ensures !s.calls[1].approve && s.calls[1].phase.Passed? && s.calls[1].phase.approval == Request(None)
    ensures s.calls[1].phase.found == Doc(UnderReview)
  {
    hide Reachable;
    BothChecked(false);
    var first, second := Approving(0, true, Checked(Request(None))), Approving(1, false, Checked(Request(None)));
    var both := Asked(0, map[0 := first, 1 := second]);
    PassedReachable(both, 1, 1, false);
    var passed := Approving(1, false, Through(Doc(UnderReview), both.db));
    assert both.calls[1 := passed] == map[1 := passed][0 := first];
    ApproveReachable(0, map[1 := passed]);
    s := Approved0(0, map[1 := passed]);
  }

  /** A rejection on one request selects the document under review; the other request is approved and an executed copy
      attached; the rejection then leaves an executed document that is a draft. */
  lemma ExecutedThenRejected() returns (executed: State, next: State)
    ensures Reachable(executed, NoMapping()) && 0 in executed.db.documents
    ensures executed.db.documents[0].execution == Executed && executed.db.documents[0].content == Approved
    ensures Enabled(executed, DecideStep(1), NoMapping())
    ensures next == DocumentRuns.Next(executed, DecideStep(1), NoMapping()) && 0 in next.db.documents
    ensures next.db.documents[0].execution == Executed && next.db.documents[0].content == Draft
  {
    hide Reachable;
    var s := RejectionSelects();
    var two := s.(calls := s.calls[2 := Changing(ToAttach, 0, Doc(Approved), 0)]);
    ReachableNext(s, SelectStep(2, ToAttach, 0), NoMapping(), two);
    executed := s.(db := WriteExecuted(s.db, 0, Doc(Approved), 8));
    assert two.calls - {2} == s.calls;
    ReachableNext(two, AttachStep(2, 8), NoMapping(), executed);
    next := DocumentRuns.Next(executed, DecideStep(1), NoMapping());
  }
}
