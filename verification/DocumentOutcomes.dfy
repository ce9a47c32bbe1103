/** How document transactions that overlap on one row relate to the methods they come from, and the exact conditions
    under which a superseded row stays superseded and an executed one approved or superseded. */
module DocumentOutcomes {
  import opened Tables
  import opened Rules
  import opened Documents
  import opened DocumentRuns

  // ---------------------------------------------------------------- without interruption

  predicate IsWrite(step: Step, op: Operation) {
    match step
    case RequestStep(_, _, _) => op == ToRequest
    case AttachStep(_, _) => op == ToAttach
    case DeliveryStep(_) => op.ToDeliver?
    case SupersedeStep(_, _, _) => op == ToSupersede
    case _ => false
  }

  // what the method says of the tables
  function InOneGo(db: Db, step: Step, op: Operation, documentId: Id): Result
    requires IsWrite(step, op)
  {
    match step
    case RequestStep(_, approvalId, at) => RequestApproval(db, documentId, approvalId, at)
    case AttachStep(_, digest) => AttachExecutedCopy(db, documentId, digest)
    case DeliveryStep(_) => RecordDelivery(db, documentId, op.status)
    case SupersedeStep(_, digest, newId) => SupersedeDocument(db, documentId, true, digest, newId)
  }

  /** A transaction that nothing interrupts between its select and its write does what its method does, and it gets to
      its write exactly when the method throws nothing. */
  lemma ChangeInOneGo(s: State, step: Step, op: Operation, documentId: Id, mapping: Mapping)
    requires IsWrite(step, op) && Enabled(s, SelectStep(step.call, op, documentId), mapping)
    requires step.RequestStep? ==> step.at == s.now && step.approvalId !in s.db.approvals
    requires step.SupersedeStep? ==> step.newId !in s.db.documents
    ensures var selected := Next(s, SelectStep(step.call, op, documentId), mapping);
            && (Enabled(selected, step, mapping) <==> InOneGo(s.db, step, op, documentId).error.None?)
            && (Enabled(selected, step, mapping) ==>
                  Next(selected, step, mapping) == s.(db := InOneGo(s.db, step, op, documentId).db))
  {
    var selected := Next(s, SelectStep(step.call, op, documentId), mapping);
    hide SetContent, SetSuperseded, Corrected;
    assert selected.calls - {step.call} == s.calls;
  }

  function Gate(s: State, call: CallId, mapping: Mapping): State
    requires Enabled(s, ReadSubject(call), mapping)
    requires Enabled(Next(s, ReadSubject(call), mapping), PassGate(call), mapping)
  {
    Next(Next(s, ReadSubject(call), mapping), PassGate(call), mapping)
  }

  /** The same for the locked decision: select, gate and commit in one go are what DecideLocked does. */
  lemma DecisionInOneGo(s: State, call: CallId, mapping: Mapping)
    requires Enabled(s, SelectToDecide(call), mapping)
    ensures var c := s.calls[call];
            var selected := Next(s, SelectToDecide(call), mapping);
            var decided := Decide(s.db, c.approvalId, c.phase.approval, c.approve, mapping);
            && (decided.error.None? <==>
                  && Enabled(selected, ReadSubject(call), mapping)
                  && Enabled(Next(selected, ReadSubject(call), mapping), PassGate(call), mapping)
                  && Enabled(Gate(selected, call, mapping), DecideStep(call), mapping))
            && (decided.error.None? ==> Next(Gate(selected, call, mapping), DecideStep(call), mapping).db == decided.db)
  {
    hide SetContent, SetDecision, Next, Enabled, LockFree, GatePasses;
    var selected := Next(s, SelectToDecide(call), mapping);
    SelectInOneGo(s, call, mapping);
    if Enabled(selected, ReadSubject(call), mapping) {
      GateInOneGo(selected, call, mapping);
      if Enabled(Next(selected, ReadSubject(call), mapping), PassGate(call), mapping) {
        CommitInOneGo(Gate(selected, call, mapping), call, mapping);
      }
    }
  }

  // the locked select ends the call or hands the row on
  lemma SelectInOneGo(s: State, call: CallId, mapping: Mapping)
    requires Enabled(s, SelectToDecide(call), mapping)
    ensures var c := s.calls[call];
            var id := c.phase.approval.documentId;
            var selected := Next(s, SelectToDecide(call), mapping);
            && selected.db == s.db
            && (Enabled(selected, ReadSubject(call), mapping) <==>
                  id in s.db.documents && !(c.approvalId in s.db.approvals
                                            && s.db.approvals[c.approvalId].decision.Some?))
            && (Enabled(selected, ReadSubject(call), mapping) ==>
                  selected.calls[call] == c.(phase := Selected(c.phase.approval, s.db.documents[id])))
  {
  }

  // the gate opens as it does for the method
  lemma GateInOneGo(s: State, call: CallId, mapping: Mapping)
    requires Enabled(s, ReadSubject(call), mapping)
    ensures var c := s.calls[call];
            var phase := c.phase;
            && (Enabled(Next(s, ReadSubject(call), mapping), PassGate(call), mapping) <==>
                  (c.approve ==> GatePasses(s.db, phase.approval, phase.found, mapping)))
            && (Enabled(Next(s, ReadSubject(call), mapping), PassGate(call), mapping) ==>
                  && Gate(s, call, mapping).db == s.db && call in Gate(s, call, mapping).calls
                  && Gate(s, call, mapping).calls[call]
                     == c.(phase := Passed(phase.approval, phase.found, SubjectRow(s.db, phase.approval, phase.found,
                                                                                   mapping), s.db.facts)))
  {
    hide GateOpens, SubjectRow;
  }

  lemma CommitInOneGo(s: State, call: CallId, mapping: Mapping)
    requires Approves(s, call) && s.calls[call].phase.Passed?
    ensures var c := s.calls[call];
            && (Enabled(s, DecideStep(call), mapping) <==> ContentAllowed(c.phase.found.content, Target(c.approve)))
            && (Enabled(s, DecideStep(call), mapping) ==>
                  Next(s, DecideStep(call), mapping).db
                  == WriteDecision(s.db, c.approvalId, c.phase.approval, c.phase.found, c.approve))
  {
    hide WriteDecision, ContentAllowed;
  }

  // ---------------------------------------------------------------- what each write does to a row

  predicate Requests(s: State, step: Step, id: Id) {
    && step.RequestStep? && step.call in s.calls && s.calls[step.call].Changing? && s.calls[step.call].documentId == id
  }

  predicate Decides(s: State, step: Step, id: Id, approve: bool) {
    && step.DecideStep? && Approves(s, step.call) && s.calls[step.call].phase.Passed?
    && s.calls[step.call].phase.approval.documentId == id && s.calls[step.call].approve == approve
  }

  predicate Attaches(s: State, step: Step, id: Id) {
    && step.AttachStep? && step.call in s.calls && s.calls[step.call].Changing? && s.calls[step.call].documentId == id
  }

  predicate Supersedes(s: State, step: Step, id: Id) {
    && step.SupersedeStep? && step.call in s.calls && s.calls[step.call].Changing?
    && s.calls[step.call].documentId == id
  }

  predicate Delivers(s: State, step: Step, id: Id) {
    && step.DeliveryStep? && step.call in s.calls && s.calls[step.call].Changing? && s.calls[step.call].documentId == id
    && s.calls[step.call].op.ToDeliver?
  }

  // what a step makes of the row of a document
  function RowAfter(s: State, step: Step, id: Id): Document
    requires id in s.db.documents
  {
    var d := s.db.documents[id];
    if Requests(s, step, id) then d.(content := UnderReview)
    else if Decides(s, step, id, true) then d.(content := Approved)
    else if Decides(s, step, id, false) then d.(content := Draft)
    else if Attaches(s, step, id) then d.(executed := Some(step.digest), execution := Executed)
    else if Delivers(s, step, id) then d.(delivery := s.calls[step.call].op.status)
    else if Supersedes(s, step, id) then d.(content := Superseded, supersededBy := Some(step.newId))
    else d
  }

  lemma RowStep(s: State, step: Step, mapping: Mapping, id: Id)
    requires Enabled(s, step, mapping) && id in s.db.documents
    ensures id in Next(s, step, mapping).db.documents
    ensures Next(s, step, mapping).db.documents[id] == RowAfter(s, step, id)
  {
    hide GateOpens, SubjectRow, ContentAllowed, Refusal, Corrected;
  }

  // an executed document is an approved or superseded one
  predicate ExecutedSafe(d: Document) {
    d.execution == Executed ==> d.content == Approved || d.content == Superseded
  }

  /** When a superseded row is superseded no more: at the commit of a request or of a decision that selected the row
      before it was superseded, and only then. */
  lemma SupersededLeavesIff(states: seq<State>, steps: seq<Step>, mapping: Mapping, i: nat, id: Id)
    requires IsRun(states, steps, mapping) && i < |steps|
    requires id in states[i].db.documents && states[i].db.documents[id].content == Superseded
    ensures id in states[i + 1].db.documents
    ensures states[i + 1].db.documents[id].content != Superseded
       <==> (Requests(states[i], steps[i], id) || Decides(states[i], steps[i], id, true)
             || Decides(states[i], steps[i], id, false))
    ensures Requests(states[i], steps[i], id) ==> states[i].calls[steps[i].call].found.content != Superseded
    ensures Decides(states[i], steps[i], id, true) || Decides(states[i], steps[i], id, false) ==>
              states[i].calls[steps[i].call].phase.found.content != Superseded
  {
    RowStep(states[i], steps[i], mapping, id);
    hide Next, GateOpens;
  }

  /** When a row that was sound in this respect comes to be executed without being approved or superseded: at the commit
      of a request or of a rejection on an executed row, or of an executed copy on a row no longer approved, all of
      which selected the row in another status; and only then. */
  lemma ExecutedBreaksIff(states: seq<State>, steps: seq<Step>, mapping: Mapping, i: nat, id: Id)
    requires IsRun(states, steps, mapping) && i < |steps|
    requires id in states[i].db.documents && ExecutedSafe(states[i].db.documents[id])
    ensures id in states[i + 1].db.documents
    ensures !ExecutedSafe(states[i + 1].db.documents[id])
       <==> (states[i].db.documents[id].execution == Executed
             && (Requests(states[i], steps[i], id) || Decides(states[i], steps[i], id, false)))
            || (Attaches(states[i], steps[i], id)
                && states[i].db.documents[id].content != Approved && states[i].db.documents[id].content != Superseded)
    ensures Attaches(states[i], steps[i], id) ==> states[i].calls[steps[i].call].found.content == Approved
    ensures Requests(states[i], steps[i], id) ==>
              states[i].calls[steps[i].call].found.content == Draft
              || states[i].calls[steps[i].call].found.content == UnderReview
    ensures Decides(states[i], steps[i], id, false) ==>
              states[i].calls[steps[i].call].phase.found.content == Draft
              || states[i].calls[steps[i].call].phase.found.content == UnderReview
  {
    RowStep(states[i], steps[i], mapping, id);
    hide Next, GateOpens;
  }

  // ---------------------------------------------------------------- when a row stays as it should

  // a request or decision in flight that may still set the content status of the document
  predicate MaySet(c: Call, id: Id, approve: bool) {
    match c
    case Changing(op, documentId, found, _) => op == ToRequest && documentId == id && Refusal(found, op).None?
    case Approving(_, own, Selected(approval, found)) =>
      own == approve && approval.documentId == id && ContentAllowed(found.content, Target(own))
    case Approving(_, own, Resolved(approval, found, _)) =>
      own == approve && approval.documentId == id && ContentAllowed(found.content, Target(own))
    case Approving(_, own, Passed(approval, found, _, _)) =>
      own == approve && approval.documentId == id && ContentAllowed(found.content, Target(own))
    case _ => false
  }

  predicate NoneMaySet(s: State, id: Id, approve: bool) {
    forall c | c in s.calls :: !MaySet(s.calls[c], id, approve)
  }

  // whatever happens from here on, the document stays superseded
  ghost predicate StaysSuperseded(s: State, id: Id, mapping: Mapping) {
    && id in s.db.documents
    && forall states: seq<State>, steps: seq<Step> | IsPath(states, steps, mapping) && states[0] == s ::
         id in states[|steps|].db.documents && states[|steps|].db.documents[id].content == Superseded
  }

  predicate ExecutedWell(d: Document) {
    d.execution == Executed && (d.content == Approved || d.content == Superseded)
  }

  // whatever happens from here on, the document stays executed and approved or superseded
  ghost predicate StaysExecuted(s: State, id: Id, mapping: Mapping) {
    && id in s.db.documents
    && forall states: seq<State>, steps: seq<Step> | IsPath(states, steps, mapping) && states[0] == s ::
         id in states[|steps|].db.documents && ExecutedWell(states[|steps|].db.documents[id])
  }

  // no call that selects the document from now on may take it out of its final statuses
  lemma NoneMaySetStep(s: State, step: Step, mapping: Mapping, id: Id, approve: bool)
    requires Enabled(s, step, mapping) && id in s.db.documents && NoneMaySet(s, id, approve)
    requires s.db.documents[id].content == Superseded || (s.db.documents[id].content == Approved && !approve)
    ensures NoneMaySet(Next(s, step, mapping), id, approve)
  {
    hide GateOpens, SubjectRow, Written;
  }

  lemma {:induction false} SupersededPath(states: seq<State>, steps: seq<Step>, mapping: Mapping, k: nat, id: Id)
    requires IsPath(states, steps, mapping) && k <= |steps|
    requires id in states[0].db.documents && states[0].db.documents[id].content == Superseded
    requires NoneMaySet(states[0], id, true) && NoneMaySet(states[0], id, false)
    ensures id in states[k].db.documents && states[k].db.documents[id].content == Superseded
    ensures NoneMaySet(states[k], id, true) && NoneMaySet(states[k], id, false)
  {
    hide Next, Enabled, MaySet;
    if k > 0 {
      SupersededPath(states, steps, mapping, k - 1, id);
      NoneMaySetStep(states[k - 1], steps[k - 1], mapping, id, true);
      NoneMaySetStep(states[k - 1], steps[k - 1], mapping, id, false);
      RowStep(states[k - 1], steps[k - 1], mapping, id);
      WritersMaySet(states[k - 1], steps[k - 1], mapping, id);
    }
  }

  lemma WritersMaySet(s: State, step: Step, mapping: Mapping, id: Id)
    requires Enabled(s, step, mapping)
    ensures Requests(s, step, id) ==> !NoneMaySet(s, id, true) && !NoneMaySet(s, id, false)
    ensures Decides(s, step, id, true) ==> !NoneMaySet(s, id, true)
    ensures Decides(s, step, id, false) ==> !NoneMaySet(s, id, false)
  {
    hide GateOpens, SubjectRow;
  }

  lemma {:induction false} ExecutedPath(states: seq<State>, steps: seq<Step>, mapping: Mapping, k: nat, id: Id)
    requires IsPath(states, steps, mapping) && k <= |steps|
    requires id in states[0].db.documents && ExecutedWell(states[0].db.documents[id])
    requires NoneMaySet(states[0], id, false)
    ensures id in states[k].db.documents && ExecutedWell(states[k].db.documents[id])
    ensures NoneMaySet(states[k], id, false)
  {
    hide Next, Enabled, MaySet;
    if k > 0 {
      ExecutedPath(states, steps, mapping, k - 1, id);
      NoneMaySetStep(states[k - 1], steps[k - 1], mapping, id, false);
      RowStep(states[k - 1], steps[k - 1], mapping, id);
      WritersMaySet(states[k - 1], steps[k - 1], mapping, id);
    }
  }

  // ---------------------------------------------------------------- what a call in flight can still do

  // some continuation ends with this content status
  ghost predicate CanBecome(s: State, id: Id, content: ContentStatus, mapping: Mapping) {
    exists states: seq<State>, steps: seq<Step> ::
      IsPath(states, steps, mapping) && states[0] == s
      && id in states[|steps|].db.documents && states[|steps|].db.documents[id].content == content
  }

  lemma BecomesNow(s: State, id: Id, mapping: Mapping)
    requires id in s.db.documents
    ensures CanBecome(s, id, s.db.documents[id].content, mapping)
  {
    assert IsPath([s], [], mapping) && [s][0] == s;
  }

  lemma BecomesNext(s: State, step: Step, id: Id, content: ContentStatus, mapping: Mapping)
    requires Enabled(s, step, mapping) && CanBecome(Next(s, step, mapping), id, content, mapping)
    ensures CanBecome(s, id, content, mapping)
  {
    hide Next, Enabled;
    var states: seq<State>, steps: seq<Step> :|
      IsPath(states, steps, mapping) && states[0] == Next(s, step, mapping)
      && id in states[|steps|].db.documents && states[|steps|].db.documents[id].content == content;
    var longer, more := [s] + states, [step] + steps;
    assert longer[0] == s && longer[|more|] == states[|steps|];
    forall i | 0 <= i < |more| ensures Enabled(longer[i], more[i], mapping)
                                       && longer[i + 1] == Next(longer[i], more[i], mapping) {
      if i > 0 {
        assert longer[i] == states[i - 1] && more[i] == steps[i - 1];
      }
    }
    assert IsPath(longer, more, mapping);
  }

  lemma WriteBecomes(s: State, step: Step, id: Id, mapping: Mapping)
    requires Enabled(s, step, mapping) && id in s.db.documents
    ensures CanBecome(s, id, RowAfter(s, step, id).content, mapping)
  {
    hide CanBecome, Next, Enabled, RowAfter;
    RowStep(s, step, mapping, id);
    BecomesNow(Next(s, step, mapping), id, mapping);
    BecomesNext(s, step, id, RowAfter(s, step, id).content, mapping);
  }

  lemma RequestCanWrite(s: State, call: CallId, id: Id, mapping: Mapping)
    requires MayWrite(s, call, ToRequest) && s.calls[call].documentId == id && id in s.db.documents
    ensures CanBecome(s, id, UnderReview, mapping)
  {
    hide CanBecome;
    var tick := Tick(if s.now < s.calls[call].selectedAt then s.calls[call].selectedAt else s.now);
    var later := Next(s, tick, mapping);
    var approvalId := UnusedId(s.db.approvals.Keys);
    var step := RequestStep(call, approvalId, later.now);
    WriteBecomes(later, step, id, mapping);
    BecomesNext(s, tick, id, UnderReview, mapping);
  }

  lemma DecisionCanWrite(s: State, call: CallId, id: Id, mapping: Mapping)
    requires Approves(s, call) && s.calls[call].phase.Passed? && s.calls[call].phase.approval.documentId == id
    requires ContentAllowed(s.calls[call].phase.found.content, Target(s.calls[call].approve)) && id in s.db.documents
    ensures CanBecome(s, id, Target(s.calls[call].approve), mapping)
  {
    hide CanBecome;
    WriteBecomes(s, DecideStep(call), id, mapping);
  }

  // the gate opens at the latest when there are no facts
  lemma GateCanPass(s: State, call: CallId, id: Id, mapping: Mapping)
    requires Approves(s, call) && s.calls[call].phase.Resolved? && s.calls[call].phase.approval.documentId == id
    requires ContentAllowed(s.calls[call].phase.found.content, Target(s.calls[call].approve)) && id in s.db.documents
    ensures CanBecome(s, id, Target(s.calls[call].approve), mapping)
  {
    hide CanBecome;
    var open := Next(s, FactsChange([], map[]), mapping);
    NoFactsOpen(s.calls[call].phase.subject, s.calls[call].phase.approval);
    hide GateOpens;
    var passed := Next(open, PassGate(call), mapping);
    DecisionCanWrite(passed, call, id, mapping);
    BecomesNext(open, PassGate(call), id, Target(s.calls[call].approve), mapping);
    BecomesNext(s, FactsChange([], map[]), id, Target(s.calls[call].approve), mapping);
  }

  lemma NoFactsOpen(subject: Option<bool>, approval: Approval)
    ensures GateOpens(subject, [], approval)
  {
    if subject.Some? {
      GateIffHealthy(subject.value, [], approval.subjectType, approval.subjectId);
    }
  }

  lemma SubjectCanResolve(s: State, call: CallId, id: Id, mapping: Mapping)
    requires Approves(s, call) && s.calls[call].phase.Selected? && s.calls[call].phase.approval.documentId == id
    requires ContentAllowed(s.calls[call].phase.found.content, Target(s.calls[call].approve)) && id in s.db.documents
    ensures CanBecome(s, id, Target(s.calls[call].approve), mapping)
  {
    hide CanBecome, SubjectRow;
    GateCanPass(Next(s, ReadSubject(call), mapping), call, id, mapping);
    BecomesNext(s, ReadSubject(call), id, Target(s.calls[call].approve), mapping);
  }

  lemma SetterCanSet(s: State, call: CallId, id: Id, approve: bool, mapping: Mapping) returns (content: ContentStatus)
    requires call in s.calls && MaySet(s.calls[call], id, approve) && id in s.db.documents
    ensures CanBecome(s, id, content, mapping)
    ensures content == UnderReview || content == Target(approve)
  {
    hide CanBecome;
    if s.calls[call].Changing? {
      content := UnderReview;
      RequestCanWrite(s, call, id, mapping);
    } else {
      content := Target(approve);
      if s.calls[call].phase.Passed? {
        DecisionCanWrite(s, call, id, mapping);
      } else if s.calls[call].phase.Resolved? {
        GateCanPass(s, call, id, mapping);
      } else {
        SubjectCanResolve(s, call, id, mapping);
      }
    }
  }

  /** A superseded document stays superseded, whatever happens next, exactly when no request and no decision that
      selected it before is in flight. */
  lemma SupersededForeverIff(states: seq<State>, steps: seq<Step>, mapping: Mapping, m: nat, id: Id)
    requires IsRun(states, steps, mapping) && m < |states|
    requires id in states[m].db.documents && states[m].db.documents[id].content == Superseded
    ensures StaysSuperseded(states[m], id, mapping)
       <==> NoneMaySet(states[m], id, true) && NoneMaySet(states[m], id, false)
  {
    var s := states[m];
    hide MaySet, Initial;
    if NoneMaySet(s, id, true) && NoneMaySet(s, id, false) {
      forall path: seq<State>, more: seq<Step> | IsPath(path, more, mapping) && path[0] == s
        ensures id in path[|more|].db.documents && path[|more|].db.documents[id].content == Superseded
      {
        SupersededPath(path, more, mapping, |more|, id);
      }
    } else {
      var approve := !NoneMaySet(s, id, true);
      var call :| call in s.calls && MaySet(s.calls[call], id, approve);
      var content := SetterCanSet(s, call, id, approve, mapping);
    }
  }

  /** An executed document that is approved or superseded stays so, whatever happens next, exactly when no request and
      no rejection that selected it before is in flight. */
  lemma ExecutedForeverIff(states: seq<State>, steps: seq<Step>, mapping: Mapping, m: nat, id: Id)
    requires IsRun(states, steps, mapping) && m < |states|
    requires id in states[m].db.documents && ExecutedWell(states[m].db.documents[id])
    ensures StaysExecuted(states[m], id, mapping) <==> NoneMaySet(states[m], id, false)
  {
    var s := states[m];
    hide MaySet, Initial;
    if NoneMaySet(s, id, false) {
      forall path: seq<State>, more: seq<Step> | IsPath(path, more, mapping) && path[0] == s
        ensures id in path[|more|].db.documents && ExecutedWell(path[|more|].db.documents[id])
      {
        ExecutedPath(path, more, mapping, |more|, id);
      }
    } else {
      var call :| call in s.calls && MaySet(s.calls[call], id, false);
      var content := SetterCanSet(s, call, id, false, mapping);
    }
  }
}
