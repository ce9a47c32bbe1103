/** Runs in which a call on an inquiry starts only when no other call on that inquiry is in flight, and a plain confirm
    only when none with its key is. Other calls overlap as they like, and every call may crash anywhere. */
module InquirySerial {
  import opened Tables
  import opened Inquiries
  import opened InquiryRuns
  import opened InquiryOutcomes

  predicate StartsApart(st: State, step: Step) {
    match step
    case ReadUpdateStep(_, id, _) => NoneOn(st, id)
    case SelectStaleStep(_, begun) => forall id | id in StaleIds(st.db.inquiries, begun) :: NoneOn(st, id)
    case BeginStep(_, input) => NoneOn(st, input.inquiryId)
    case LookAloneStep(_, key, _, _) => NoneMissed(st, key)
    case _ => true
  }

  ghost predicate IsSerialRun(states: seq<State>, steps: seq<Step>, uses: Uses) {
    IsRun(states, steps, uses) && forall i | 0 <= i < |steps| :: StartsApart(states[i], steps[i])
  }

  // ---------------------------------------------------------------- what serial runs keep besides

  ghost predicate Alone(st: State) {
    forall c, d, id | c in st.calls && d in st.calls && On(st.calls[c], id) && On(st.calls[d], id) :: c == d
  }

  // the row is as the call read it, and so is the date on the seeker it has written
  predicate AsRead(st: State, call: Call) {
    match call
    case Updating(id, existing, _, _) => HasRow(st, id, existing)
    case Closing(ids, selectedAt) =>
      forall id | id in ids :: id in st.db.inquiries && ClosesInBulk(st.db.inquiries[id], selectedAt)
    case Confirming(_, _, _) => true
    case Promoting(input, existing, acceptedAt, stage) =>
      HasRow(st, input.inquiryId, existing) && (stage.HasWritten? ==> DatedAs(st, stage.seeker, acceptedAt))
  }

  predicate DatedAs(st: State, s: SeekerId, date: Day) {
    s in st.db.seekers && st.db.seekers[s].acceptedAt == date
  }

  predicate AllAsRead(st: State) {
    forall c | c in st.calls :: AsRead(st, st.calls[c])
  }

  predicate FinalSafe(st: State, row: Inquiry) {
    && (row.status == Promoted ==>
          && !LacksPaper(row.received)
          && row.promotedJobSeekerId.Some? && row.setReceivedAt.Some?
          && DatedAs(st, row.promotedJobSeekerId.value, row.setReceivedAt.value))
    && (row.status == Closed ==> ClosedSafe(row))
  }

  predicate AllFinalSafe(st: State) {
    forall id | id in st.db.inquiries :: FinalSafe(st, st.db.inquiries[id])
  }

  ghost predicate SerialInv(st: State, uses: Uses) {
    Inv(st, uses) && Alone(st) && AllAsRead(st) && AllFinalSafe(st)
  }

  // ---------------------------------------------------------------- each step

  lemma AloneKept(st: State, uses: Uses, step: Step)
    requires Alone(st) && Enabled(st, step, uses) && StartsApart(st, step)
    ensures Alone(Apply(st, step, uses))
  {
    hide WriteConfirm, Update, Refusal, ClosesInBulk, Overwrite, MarkClosed, PromotedRow, IsApplicationSetComplete,
         IsDmComplete;
  }

  lemma OneAsRead(st: State, c: CallId)
    requires AllAsRead(st) && c in st.calls
    ensures AsRead(st, st.calls[c])
  {
    hide AsRead;
  }

  lemma OneFinalSafe(st: State, id: Id)
    requires AllFinalSafe(st) && id in st.db.inquiries
    ensures FinalSafe(st, st.db.inquiries[id])
  {
    hide FinalSafe;
  }

  // a step of another call leaves the row alone
  lemma RowUntouched(st: State, uses: Uses, step: Step, c: CallId, id: Id)
    requires Alone(st) && Enabled(st, step, uses) && c in st.calls && On(st.calls[c], id) && id in st.db.inquiries
    requires (step.WriteUpdateStep? || step.WriteInquiryStep? || step.CloseOneStep?) ==> step.c != c
    ensures HasRow(Apply(st, step, uses), id, st.db.inquiries[id])
  {
    hide Apply, Update, Overwrite, MarkClosed, PromotedRow;
    RowAfterStep(st, uses, step, id);
    if step.WriteUpdateStep? || step.WriteInquiryStep? || step.CloseOneStep? {
      assert !On(st.calls[step.c], id);
    }
  }

  lemma DateAfterStep(st: State, uses: Uses, step: Step, s: SeekerId)
    requires Enabled(st, step, uses) && s in st.db.seekers
    ensures s in Apply(st, step, uses).db.seekers
    ensures Apply(st, step, uses).db.seekers[s].acceptedAt != st.db.seekers[s].acceptedAt ==> Writes(st, step, s)
  {
    hide Update, Refusal, Begin;
  }

  // who writes a seeker is a promotion of the inquiry the seeker was confirmed for
  lemma WriterIsOn(st: State, uses: Uses, step: Step, s: SeekerId, id: Id)
    requires Inv(st, uses) && Writes(st, step, s) && s in st.keyOf && uses(st.keyOf[s]) == ForInquiry(id)
    ensures On(st.calls[step.c], id)
  {
    hide RowsOk, CallsOk, KeysMatch, AuditMatches, IsApplicationSetComplete;
    OneCallOk(st, uses, step.c);
  }

  lemma DateUntouched(st: State, uses: Uses, step: Step, c: CallId)
    requires Inv(st, uses) && Alone(st) && Enabled(st, step, uses) && c in st.calls
    requires st.calls[c].Promoting? && st.calls[c].stage.HasWritten?
    requires DatedAs(st, st.calls[c].stage.seeker, st.calls[c].acceptedAt)
    ensures DatedAs(Apply(st, step, uses), st.calls[c].stage.seeker, st.calls[c].acceptedAt)
  {
    hide Apply, RowsOk, CallsOk, KeysMatch, AuditMatches, IsApplicationSetComplete;
    var s := st.calls[c].stage.seeker;
    OneCallOk(st, uses, c);
    DateAfterStep(st, uses, step, s);
    if Writes(st, step, s) {
      WriterIsOn(st, uses, step, s, st.calls[c].input.inquiryId);
    }
  }

  // a call that the step does not advance
  lemma WaitingAsRead(st: State, uses: Uses, step: Step, c: CallId)
    requires Inv(st, uses) && Alone(st) && AllAsRead(st) && Enabled(st, step, uses) && c in st.calls
    requires (step.WriteUpdateStep? || step.WriteInquiryStep? || step.CloseOneStep?) ==> step.c != c
    ensures AsRead(Apply(st, step, uses), st.calls[c])
  {
    hide Inv, Alone, Apply, ClosesInBulk, DatedAs;
    OneAsRead(st, c);
    var later := Apply(st, step, uses);
    match st.calls[c]
    case Updating(id, _, _, _) => RowUntouched(st, uses, step, c, id);
    case Closing(ids, _) =>
      forall id | id in ids ensures HasRow(later, id, st.db.inquiries[id]) {
        RowUntouched(st, uses, step, c, id);
      }
    case Confirming(_, _, _) =>
    case Promoting(input, _, _, stage) =>
      RowUntouched(st, uses, step, c, input.inquiryId);
      if stage.HasWritten? {
        DateUntouched(st, uses, step, c);
      }
  }

  lemma LaterStale(row: Inquiry, begun: int, selectedAt: int)
    requires ClosesInBulk(row, begun) && begun <= selectedAt
    ensures ClosesInBulk(row, selectedAt)
  {
  }

  lemma SelectedAsRead(st: State, uses: Uses, c: CallId, begun: int)
    requires Enabled(st, SelectStaleStep(c, begun), uses)
    ensures AsRead(Apply(st, SelectStaleStep(c, begun), uses), Closing(StaleIds(st.db.inquiries, begun), st.now))
  {
    hide ClosesInBulk;
    forall id | id in StaleIds(st.db.inquiries, begun) ensures ClosesInBulk(st.db.inquiries[id], st.now) {
      LaterStale(st.db.inquiries[id], begun, st.now);
    }
  }

  lemma ClosingAsRead(st: State, uses: Uses, c: CallId, id: Id, at: int)
    requires AllAsRead(st) && Enabled(st, CloseOneStep(c, id, at), uses)
    ensures AsRead(Apply(st, CloseOneStep(c, id, at), uses), Closing(st.calls[c].ids - {id}, st.calls[c].selectedAt))
  {
    hide ClosesInBulk, MarkClosed;
    OneAsRead(st, c);
  }

  lemma WriterAsRead(st: State, uses: Uses, c: CallId)
    requires AllAsRead(st) && Enabled(st, WriteSeekerStep(c), uses) && st.calls[c].stage.seeker in st.db.seekers
    ensures AsRead(Apply(st, WriteSeekerStep(c), uses), st.calls[c].(stage := HasWritten(st.calls[c].stage.seeker)))
  {
    OneAsRead(st, c);
  }

  // what the call of a step becomes
  lemma AdvancedAsRead(st: State, uses: Uses, step: Step, c: CallId)
    requires Inv(st, uses) && AllAsRead(st) && Enabled(st, step, uses)
    requires c in Apply(st, step, uses).calls && (c !in st.calls || Apply(st, step, uses).calls[c] != st.calls[c])
    ensures AsRead(Apply(st, step, uses), Apply(st, step, uses).calls[c])
  {
    hide Inv, AllAsRead, IsApplicationSetComplete, Refusal, Update, ClosesInBulk, WriteConfirm;
    match step
    case SelectStaleStep(_, begun) => hide AsRead; SelectedAsRead(st, uses, c, begun);
    case CloseOneStep(_, id, at) => hide AsRead; ClosingAsRead(st, uses, c, id, at);
    case WriteSeekerStep(_) => hide AsRead; SeekerThere(st, uses, c); WriterAsRead(st, uses, c);
    case ConfirmStep(_, newId) => OneAsRead(st, c); SameInquiries(st, uses, c, newId);
    case LookStep(_) => OneAsRead(st, c);
    case _ =>
  }

  lemma SeekerThere(st: State, uses: Uses, c: CallId)
    requires Inv(st, uses) && Enabled(st, WriteSeekerStep(c), uses)
    ensures st.calls[c].stage.seeker in st.db.seekers
  {
    hide RowsOk, KeysMatch, AuditMatches, IsApplicationSetComplete;
    OneCallOk(st, uses, c);
  }

  lemma SameInquiries(st: State, uses: Uses, c: CallId, newId: SeekerId)
    requires Enabled(st, ConfirmStep(c, newId), uses)
    ensures Apply(st, ConfirmStep(c, newId), uses).db.inquiries == st.db.inquiries
  {
  }

  lemma AsReadKept(st: State, uses: Uses, step: Step)
    requires Inv(st, uses) && Alone(st) && AllAsRead(st) && Enabled(st, step, uses)
    ensures AllAsRead(Apply(st, step, uses))
  {
    hide Inv, Alone, AsRead, Apply, Enabled;
    var later := Apply(st, step, uses);
    forall c | c in later.calls ensures AsRead(later, later.calls[c]) {
      if c in st.calls && later.calls[c] == st.calls[c] {
        NotItsOwn(st, uses, step, c);
        WaitingAsRead(st, uses, step, c);
      } else {
        AdvancedAsRead(st, uses, step, c);
      }
    }
  }

  // a call that has not changed is not the one that wrote a row
  lemma NotItsOwn(st: State, uses: Uses, step: Step, c: CallId)
    requires Enabled(st, step, uses) && c in st.calls && c in Apply(st, step, uses).calls
    requires Apply(st, step, uses).calls[c] == st.calls[c]
    ensures (step.WriteUpdateStep? || step.WriteInquiryStep? || step.CloseOneStep?) ==> step.c != c
  {
    hide Update, Overwrite, MarkClosed, PromotedRow, WriteConfirm, Refusal, Begin;
    assert step.CloseOneStep? ==> step.id !in Apply(st, step, uses).calls[step.c].ids;
  }

  // ---------------------------------------------------------------- final rows

  lemma PromotionIsSafe(st: State, uses: Uses, step: Step, id: Id)
    requires Inv(st, uses) && AllAsRead(st) && Enabled(st, step, uses) && Promotes(st, step, id)
    ensures FinalSafe(Apply(st, step, uses), RowAfter(st, uses, step, id))
  {
    hide RowsOk, KeysMatch, AuditMatches, IsApplicationSetComplete, AllAsRead, CallsOk, ClosedSafe, LacksPaper;
    OneCallOk(st, uses, step.c);
    OneAsRead(st, step.c);
    CompleteIff(st.calls[step.c].existing.received);
  }

  lemma CloseIsSafe(st: State, uses: Uses, step: Step, id: Id)
    requires AllAsRead(st) && Enabled(st, step, uses) && ClosesOne(st, step, id)
    ensures FinalSafe(Apply(st, step, uses), RowAfter(st, uses, step, id))
  {
    hide IsApplicationSetComplete, AllAsRead, LacksPaper;
    OneAsRead(st, step.c);
    CompleteIff(st.db.inquiries[id].received);
  }

  // a promoted row refers to a seeker that nobody is about to write
  lemma PromotedDateKept(st: State, uses: Uses, step: Step, id: Id)
    requires Inv(st, uses) && AllAsRead(st) && Enabled(st, step, uses)
    requires id in st.db.inquiries && st.db.inquiries[id].status == Promoted && FinalSafe(st, st.db.inquiries[id])
    ensures FinalSafe(Apply(st, step, uses), st.db.inquiries[id])
  {
    hide Apply, RowsOk, CallsOk, KeysMatch, AuditMatches, LacksPaper, ClosedSafe, AllAsRead, RowSound;
    var s := st.db.inquiries[id].promotedJobSeekerId.value;
    OneRowOk(st, uses, id);
    DateAfterStep(st, uses, step, s);
    if Writes(st, step, s) {
      WriterIsOn(st, uses, step, s, id);
      OneAsRead(st, step.c);
      OneCallOk(st, uses, step.c);
    }
  }

  lemma FinalSafeKept(st: State, uses: Uses, step: Step, id: Id)
    requires Inv(st, uses) && AllAsRead(st) && AllFinalSafe(st) && Enabled(st, step, uses)
    requires id in Apply(st, step, uses).db.inquiries
    ensures FinalSafe(Apply(st, step, uses), Apply(st, step, uses).db.inquiries[id])
  {
    hide Inv, AllAsRead, AllFinalSafe, Apply, Update, Overwrite, ClosedSafe, LacksPaper, DatedAs,
         PromotedRow, MarkClosed;
    if id !in st.db.inquiries {
      NewRowIsOpen(st, uses, step, id);
    } else {
      OneFinalSafe(st, id);
      RowAfterStep(st, uses, step, id);
      if WritesUpdate(st, step, id) {
        UpdateNeverPromotes(st, uses, step, id);
        LateClose(st, uses, step, id);
      } else if ClosesOne(st, step, id) {
        CloseIsSafe(st, uses, step, id);
      } else if Promotes(st, step, id) {
        PromotionIsSafe(st, uses, step, id);
      } else if st.db.inquiries[id].status == Promoted {
        PromotedDateKept(st, uses, step, id);
      }
    }
  }

  lemma StepKeepsSerialInv(st: State, uses: Uses, step: Step)
    requires SerialInv(st, uses) && Enabled(st, step, uses) && StartsApart(st, step)
    ensures SerialInv(Apply(st, step, uses), uses)
  {
    hide Inv, Alone, AllAsRead, Apply, FinalSafe;
    StepKeepsInv(st, uses, step);
    AloneKept(st, uses, step);
    AsReadKept(st, uses, step);
    var later := Apply(st, step, uses);
    forall id | id in later.db.inquiries ensures FinalSafe(later, later.db.inquiries[id]) {
      FinalSafeKept(st, uses, step, id);
    }
  }

  lemma {:induction false} RunKeepsSerialInv(states: seq<State>, steps: seq<Step>, uses: Uses, i: nat)
    requires IsSerialRun(states, steps, uses) && i < |states|
    ensures SerialInv(states[i], uses)
  {
    hide Apply, Enabled, StartsApart;
    if i > 0 {
      hide SerialInv;
      RunKeepsSerialInv(states, steps, uses, i - 1);
      StepKeepsSerialInv(states[i - 1], uses, steps[i - 1]);
    }
  }

  // ---------------------------------------------------------------- main results

  /** In serial runs a promoted inquiry has a complete set and a job seeker with its channel, its id and its
      acceptance date, and a closed one has an incomplete set, sent at least seven days before it was closed. */
  lemma FinalRowsAreSafe(states: seq<State>, steps: seq<Step>, uses: Uses, i: nat, id: Id)
    requires IsSerialRun(states, steps, uses) && i < |states| && id in states[i].db.inquiries
    ensures states[i].db.inquiries[id].status == Promoted ==>
              && !LacksPaper(states[i].db.inquiries[id].received)
              && states[i].db.inquiries[id].promotedJobSeekerId.Some? && states[i].db.inquiries[id].setReceivedAt.Some?
              && Marked(states[i], uses, id, states[i].db.inquiries[id].promotedJobSeekerId.value)
              && DatedAs(states[i], states[i].db.inquiries[id].promotedJobSeekerId.value,
                         states[i].db.inquiries[id].setReceivedAt.value)
    ensures states[i].db.inquiries[id].status == Closed ==> ClosedSafe(states[i].db.inquiries[id])
  {
    hide Inv, Alone, AllAsRead, ClosedSafe, LacksPaper, Marked, DatedAs;
    RunKeepsSerialInv(states, steps, uses, i);
    InquiriesStaySafe(states, steps, uses, i, id);
    assert FinalSafe(states[i], states[i].db.inquiries[id]);
  }

  lemma NoneOnFinal(st: State, uses: Uses, id: Id)
    requires SerialInv(st, uses) && id in st.db.inquiries && IsFinal(st.db.inquiries[id])
    ensures NoneOn(st, id)
  {
    hide RowsOk, CallsOk, KeysMatch, AuditMatches, AllAsRead, IsApplicationSetComplete, RowSound, IsDmComplete;
    forall c | c in st.calls ensures !On(st.calls[c], id) {
      OneCallOk(st, uses, c);
      OneAsRead(st, c);
    }
  }

  /** In serial runs promoted and closed are final: from then on the row never changes at all. */
  lemma FinalRowsNeverChange(states: seq<State>, steps: seq<Step>, uses: Uses, i: nat, id: Id)
    requires IsSerialRun(states, steps, uses) && i < |states|
    requires id in states[i].db.inquiries && IsFinal(states[i].db.inquiries[id])
    ensures NeverChanges(states[i], uses, id)
  {
    hide SerialInv, NeverChanges, IsRun;
    RunKeepsSerialInv(states, steps, uses, i);
    NoneOnFinal(states[i], uses, id);
    FinalForeverIff(states, steps, uses, i, id);
  }

  // ---------------------------------------------------------------- one job seeker for a key

  // a confirm whose check has missed is the only one under its key, and the key is still free
  ghost predicate MissedApart(st: State) {
    && (forall c, d, key | c in st.calls && d in st.calls && MissedUnder(st.calls[c], key)
                           && MissedUnder(st.calls[d], key) :: c == d)
    && (forall c, key | c in st.calls && MissedUnder(st.calls[c], key) :: key !in st.db.outbox)
  }

  // who misses now did so before, or finds the key free and no other call that has missed under it
  lemma MissesNow(st: State, uses: Uses, step: Step, c: CallId, key: Key)
    requires Inv(st, uses) && Alone(st) && Enabled(st, step, uses) && StartsApart(st, step)
    requires c in Apply(st, step, uses).calls && MissedUnder(Apply(st, step, uses).calls[c], key)
    ensures (c in st.calls && MissedUnder(st.calls[c], key))
         || (key !in st.db.outbox && NoneMissed(st, key) && (step.LookStep? || step.LookAloneStep?) && step.c == c)
  {
    hide RowsOk, CallsOk, KeysMatch, AuditMatches, IsApplicationSetComplete, Apply;
    MissedBefore(st, uses, step, c, key);
    if step.LookStep? && step.c == c && st.calls[c].input.key == key {
      OneCallOk(st, uses, c);
      LookedAlone(st, uses, c, key);
    }
    if (step.LookStep? || step.LookAloneStep?) && uses(key) != ForOther && KnownSeeker(st.db.outbox, key).None? {
      FreeKey(st, uses, key);
    }
  }

  lemma FreeKey(st: State, uses: Uses, key: Key)
    requires KeysMatch(st.db, st.keyOf, uses) && uses(key) != ForOther && KnownSeeker(st.db.outbox, key).None?
    ensures key !in st.db.outbox
  {
  }

  // no other call under the key of a promotion is in flight
  lemma LookedAlone(st: State, uses: Uses, c: CallId, key: Key)
    requires Inv(st, uses) && Alone(st) && Enabled(st, LookStep(c), uses) && st.calls[c].input.key == key
    ensures NoneMissed(st, key)
  {
    hide RowsOk, CallsOk, KeysMatch, AuditMatches, IsApplicationSetComplete;
    OneCallOk(st, uses, c);
    forall d | d in st.calls ensures !MissedUnder(st.calls[d], key) {
      OneCallOk(st, uses, d);
      assert On(st.calls[c], st.calls[c].input.inquiryId);
    }
  }

  // a row under the key of a call that has missed is the work of that call
  lemma RowOfMissed(st: State, uses: Uses, step: Step, c: CallId, key: Key)
    requires Inv(st, uses) && MissedApart(st) && Enabled(st, step, uses)
    requires c in st.calls && MissedUnder(st.calls[c], key)
    requires c in Apply(st, step, uses).calls && MissedUnder(Apply(st, step, uses).calls[c], key)
    ensures key !in Apply(st, step, uses).db.outbox
  {
    hide RowsOk, CallsOk, KeysMatch, AuditMatches, Update, Refusal, Begin, IsApplicationSetComplete;
    OneCallOk(st, uses, c);
    if step.ConfirmStep? || step.ConfirmAloneStep? {
      assert step.c != c ==> !MissedUnder(st.calls[step.c], key);
    }
  }

  lemma LookAddsNoRow(st: State, uses: Uses, step: Step)
    requires Enabled(st, step, uses) && (step.LookStep? || step.LookAloneStep?)
    ensures Apply(st, step, uses).db == st.db
  {
  }

  lemma MissedApartKept(st: State, uses: Uses, step: Step)
    requires Inv(st, uses) && Alone(st) && MissedApart(st) && Enabled(st, step, uses) && StartsApart(st, step)
    ensures MissedApart(Apply(st, step, uses))
  {
    hide Inv, Alone, Apply, Enabled, StartsApart, MissedUnder;
    var later := Apply(st, step, uses);
    forall c, key | c in later.calls && MissedUnder(later.calls[c], key) ensures key !in later.db.outbox {
      MissesNow(st, uses, step, c, key);
      if c in st.calls && MissedUnder(st.calls[c], key) {
        RowOfMissed(st, uses, step, c, key);
      } else {
        LookAddsNoRow(st, uses, step);
      }
    }
    forall c, d, key | c in later.calls && d in later.calls && MissedUnder(later.calls[c], key)
      && MissedUnder(later.calls[d], key)
      ensures c == d
    {
      MissesNow(st, uses, step, c, key);
      MissesNow(st, uses, step, d, key);
    }
  }

  lemma {:induction false} RunKeepsMissedApart(states: seq<State>, steps: seq<Step>, uses: Uses, i: nat)
    requires IsSerialRun(states, steps, uses) && i < |states|
    ensures MissedApart(states[i])
  {
    hide Apply, Enabled, StartsApart, MissedUnder, Inv, Alone;
    if i > 0 {
      hide MissedApart;
      RunKeepsMissedApart(states, steps, uses, i - 1);
      RunKeepsSerialInv(states, steps, uses, i - 1);
      MissedApartKept(states[i - 1], uses, steps[i - 1]);
    }
  }

  /** In serial runs every key of an inquiry or of a plain confirm has one job seeker. */
  lemma OneSeekerPerKey(states: seq<State>, steps: seq<Step>, uses: Uses, i: nat, key: Key)
    requires IsSerialRun(states, steps, uses) && i < |states|
    requires key in states[i].db.outbox && uses(key) != ForOther
    ensures HasOneSeeker(states[i], key)
  {
    hide Apply, Enabled, StartsApart, MissedUnder, HasOneSeeker;
    forall j | 0 <= j < i ensures !ConfirmsAgain(states[j], steps[j], key) {
      RunKeepsMissedApart(states, steps, uses, j);
    }
    OneSeekerIff(states, steps, uses, i, key);
  }
}
