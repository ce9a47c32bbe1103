/** Runs in which a transaction on a document starts only when no other one on it is in flight. Transactions on other
    documents overlap as they like, approveDocument reads and voids whenever it likes, and calls crash anywhere. */
module DocumentSerial {
  import opened Tables
  import opened Rules
  import opened Documents
  import opened DocumentRuns
  import opened DocumentOutcomes

  // a transaction in flight that has selected the document
  predicate On(c: Call, id: Id) {
    match c
    case Changing(_, documentId, _, _) => documentId == id
    case Approving(_, _, Selected(approval, _)) => approval.documentId == id
    case Approving(_, _, Resolved(approval, _, _)) => approval.documentId == id
    case Approving(_, _, Passed(approval, _, _, _)) => approval.documentId == id
    case _ => false
  }

  function FoundBy(c: Call, id: Id): Document
    requires On(c, id)
  {
    match c
    case Changing(_, _, found, _) => found
    case Approving(_, _, phase) => phase.found
  }

  predicate NoneOn(s: State, id: Id) {
    forall c | c in s.calls :: !On(s.calls[c], id)
  }

  predicate StartsApart(s: State, step: Step) {
    match step
    case SelectStep(_, _, documentId) => NoneOn(s, documentId)
    case SelectToDecide(call) =>
      Approves(s, call) && s.calls[call].phase.Checked? ==> NoneOn(s, s.calls[call].phase.approval.documentId)
    case _ => true
  }

  ghost predicate IsSerialRun(states: seq<State>, steps: seq<Step>, mapping: Mapping) {
    IsRun(states, steps, mapping) && forall i | 0 <= i < |steps| :: StartsApart(states[i], steps[i])
  }

  predicate DocumentSafe(d: Document) {
    && (d.execution == Executed ==> d.content == Approved || d.content == Superseded)
    && (d.supersededBy.Some? ==> d.content == Superseded)
  }

  // one transaction at a time has selected a document, and the row is still as it found it
  ghost predicate Alone(s: State) {
    && (forall c, d, id | c in s.calls && d in s.calls && On(s.calls[c], id) && On(s.calls[d], id) :: c == d)
    && (forall c, id | c in s.calls && On(s.calls[c], id) ::
          id in s.db.documents && s.db.documents[id] == FoundBy(s.calls[c], id))
  }

  ghost predicate AllSafe(db: Db) {
    forall id | id in db.documents :: DocumentSafe(db.documents[id])
  }

  // ---------------------------------------------------------------- each step

  // a call that goes on being on a document was so before, or has just selected it
  lemma OnBefore(s: State, step: Step, mapping: Mapping, c: CallId, id: Id)
    requires Enabled(s, step, mapping) && c in Next(s, step, mapping).calls && On(Next(s, step, mapping).calls[c], id)
    ensures (c in s.calls && On(s.calls[c], id) && !Writes(step, c)
             && FoundBy(Next(s, step, mapping).calls[c], id) == FoundBy(s.calls[c], id))
            || (Selects(s, step, c, id) && id in s.db.documents
                && FoundBy(Next(s, step, mapping).calls[c], id) == s.db.documents[id])
  {
    hide Written, GateOpens, SubjectRow, LockFree, MayWrite;
  }

  predicate Writes(step: Step, c: CallId) {
    (step.RequestStep? || step.AttachStep? || step.DeliveryStep? || step.SupersedeStep? || step.DecideStep?)
    && step.call == c
  }

  predicate Selects(s: State, step: Step, c: CallId, id: Id) {
    (step.SelectStep? && step.call == c && step.documentId == id)
    || (step.SelectToDecide? && step.call == c && Approves(s, c) && s.calls[c].phase.Checked?
        && s.calls[c].phase.approval.documentId == id)
  }

  // a row changes only at the write of a call that is on it
  lemma ChangedByItsCall(s: State, step: Step, mapping: Mapping, id: Id)
    requires Enabled(s, step, mapping) && id in s.db.documents && RowAfter(s, step, id) != s.db.documents[id]
    ensures Writes(step, step.call) && step.call in s.calls && On(s.calls[step.call], id)
  {
    hide GateOpens, SubjectRow, LockFree;
  }

  lemma StepKeepsAlone(s: State, step: Step, mapping: Mapping)
    requires Alone(s) && Enabled(s, step, mapping) && StartsApart(s, step)
    ensures Alone(Next(s, step, mapping))
  {
    hide Next, Enabled, On, FoundBy, RowAfter, StartsApart, Writes;
    var s' := Next(s, step, mapping);
    forall c, id | c in s'.calls && On(s'.calls[c], id)
      ensures id in s'.db.documents && s'.db.documents[id] == FoundBy(s'.calls[c], id)
    {
      OnBefore(s, step, mapping, c, id);
      RowStep(s, step, mapping, id);
      if RowAfter(s, step, id) != s.db.documents[id] {
        ChangedByItsCall(s, step, mapping, id);
        SelectsWritesNot(s, step, c, id);
      }
    }
    forall c, d, id | c in s'.calls && d in s'.calls && On(s'.calls[c], id) && On(s'.calls[d], id) ensures c == d {
      OnBefore(s, step, mapping, c, id);
      OnBefore(s, step, mapping, d, id);
      SelectsApart(s, step, c, id);
      SelectsApart(s, step, d, id);
    }
  }

  lemma SelectsWritesNot(s: State, step: Step, c: CallId, id: Id)
    ensures Selects(s, step, c, id) ==> !Writes(step, step.call)
  {
  }

  lemma SelectsApart(s: State, step: Step, c: CallId, id: Id)
    requires StartsApart(s, step)
    ensures Selects(s, step, c, id) ==> NoneOn(s, id) && c == step.call
  {
    hide On;
  }

  // on a safe row that is as it was found, a write whose checks have passed leaves a safe row
  lemma RowStaysSafe(s: State, step: Step, mapping: Mapping, id: Id)
    requires Enabled(s, step, mapping) && Alone(s) && id in s.db.documents && DocumentSafe(s.db.documents[id])
    ensures DocumentSafe(RowAfter(s, step, id))
  {
    hide GateOpens, SubjectRow, LockFree;
    if RowAfter(s, step, id) != s.db.documents[id] {
      ChangedByItsCall(s, step, mapping, id);
      assert s.db.documents[id] == FoundBy(s.calls[step.call], id);
    }
  }

  lemma NewRowSafe(s: State, step: Step, mapping: Mapping, id: Id)
    requires Enabled(s, step, mapping) && id !in s.db.documents && id in Next(s, step, mapping).db.documents
    ensures DocumentSafe(Next(s, step, mapping).db.documents[id])
  {
    hide GateOpens, SubjectRow, LockFree, ContentAllowed;
  }

  lemma StepKeepsSafe(s: State, step: Step, mapping: Mapping)
    requires Alone(s) && AllSafe(s.db) && Enabled(s, step, mapping)
    ensures AllSafe(Next(s, step, mapping).db)
  {
    hide Next, Enabled, Alone, RowAfter, DocumentSafe;
    var s' := Next(s, step, mapping);
    forall id | id in s'.db.documents ensures DocumentSafe(s'.db.documents[id]) {
      if id in s.db.documents {
        RowStep(s, step, mapping, id);
        RowStaysSafe(s, step, mapping, id);
      } else {
        NewRowSafe(s, step, mapping, id);
      }
    }
  }

  lemma {:induction false} RunKeepsSerialInv(states: seq<State>, steps: seq<Step>, mapping: Mapping, i: nat)
    requires IsSerialRun(states, steps, mapping) && i < |states|
    ensures Alone(states[i]) && AllSafe(states[i].db)
  {
    hide Next, Enabled, On, FoundBy, StartsApart, DocumentSafe;
    if i > 0 {
      hide Alone, AllSafe;
      RunKeepsSerialInv(states, steps, mapping, i - 1);
      StepKeepsAlone(states[i - 1], steps[i - 1], mapping);
      StepKeepsSafe(states[i - 1], steps[i - 1], mapping);
    }
  }

  // ---------------------------------------------------------------- main results

  /** In serial runs an executed document is approved or superseded, and one that has a new version is superseded. */
  lemma DocumentsStaySafe(states: seq<State>, steps: seq<Step>, mapping: Mapping, i: nat, id: Id)
    requires IsSerialRun(states, steps, mapping) && i < |states| && id in states[i].db.documents
    ensures DocumentSound(states[i].db, id) && DocumentSafe(states[i].db.documents[id])
  {
    hide DocumentSafe, DocumentSound, Alone;
    RunKeepsSerialInv(states, steps, mapping, i);
    DocumentsStaySound(states, steps, mapping, i, id);
  }

  lemma NoneMaySetFinal(s: State, id: Id, approve: bool)
    requires Alone(s) && id in s.db.documents
    requires s.db.documents[id].content == Superseded || (s.db.documents[id].content == Approved && !approve)
    ensures NoneMaySet(s, id, approve)
  {
    forall c | c in s.calls ensures !MaySet(s.calls[c], id, approve) {
      if On(s.calls[c], id) {
        assert s.db.documents[id] == FoundBy(s.calls[c], id);
      }
    }
  }

  /** In serial runs superseded is final, and so is executed: no continuation takes a superseded document out of that
      status, or an executed one out of approved and superseded. */
  lemma FinalDocumentsStay(states: seq<State>, steps: seq<Step>, mapping: Mapping, i: nat, id: Id)
    requires IsSerialRun(states, steps, mapping) && i < |states| && id in states[i].db.documents
    ensures states[i].db.documents[id].content == Superseded ==> StaysSuperseded(states[i], id, mapping)
    ensures states[i].db.documents[id].execution == Executed ==> StaysExecuted(states[i], id, mapping)
  {
    hide Alone, NoneMaySet, StaysSuperseded, StaysExecuted, IsRun;
    RunKeepsSerialInv(states, steps, mapping, i);
    assert DocumentSafe(states[i].db.documents[id]);
    if states[i].db.documents[id].content == Superseded {
      NoneMaySetFinal(states[i], id, true);
      NoneMaySetFinal(states[i], id, false);
      SupersededForeverIff(states, steps, mapping, i, id);
    }
    if states[i].db.documents[id].execution == Executed {
      NoneMaySetFinal(states[i], id, false);
      ExecutedForeverIff(states, steps, mapping, i, id);
    }
  }
}
