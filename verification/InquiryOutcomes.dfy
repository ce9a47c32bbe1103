/** What holds of inquiries in every run, however calls overlap, and the exact conditions of what does not. */
module InquiryOutcomes {
  import opened Tables
  import opened Inquiries
  import opened InquiryRuns

  // ---------------------------------------------------------------- whatever overlaps

  /** In every reachable state an open inquiry was never sent the set, a sent one was, and a promoted one has a
      job seeker that was confirmed under one of its keys and carries its id and its channel. */
  lemma InquiriesStaySafe(states: seq<State>, steps: seq<Step>, uses: Uses, i: nat, id: Id)
    requires IsRun(states, steps, uses) && i < |states| && id in states[i].db.inquiries
    ensures states[i].db.inquiries[id].dmComplete <==> AllAnswered(states[i].db.inquiries[id].dmAnswers)
    ensures states[i].db.inquiries[id].status == Open ==> states[i].db.inquiries[id].setSentAt == None
    ensures states[i].db.inquiries[id].status == SetSent ==> states[i].db.inquiries[id].setSentAt.Some?
    ensures states[i].db.inquiries[id].status == Promoted ==>
              && states[i].db.inquiries[id].setReceivedAt.Some?
              && states[i].db.inquiries[id].promotedJobSeekerId.Some?
              && Marked(states[i], uses, id, states[i].db.inquiries[id].promotedJobSeekerId.value)
  {
    hide Marked, Answered, RowsOk;
    RunKeepsInv(states, steps, uses, i);
    OneRowOk(states[i], uses, id);
  }

  predicate OnlyEventOf(audit: seq<Confirmed>, n: nat, s: SeekerId)
    requires n < |audit|
  {
    audit[n].aggregateId == s && forall m | 0 <= m < |audit| && m != n :: audit[m].aggregateId != s
  }

  lemma OneEvent(audit: seq<Confirmed>, seekers: map<SeekerId, Seeker>, s: SeekerId)
    requires AuditMatches(audit, seekers) && s in seekers
    ensures exists n :: 0 <= n < |audit| && OnlyEventOf(audit, n, s)
  {
    var n :| 0 <= n < |audit| && audit[n].aggregateId == s;
    assert OnlyEventOf(audit, n, s);
  }

  /** In every reachable state the row of a key of an inquiry or of a plain confirm names a job seeker confirmed under
      that key, so that the rows of two keys never name one; and every job seeker has one audit event and a key. */
  lemma KeysNameSeekers(states: seq<State>, steps: seq<Step>, uses: Uses, i: nat)
    requires IsRun(states, steps, uses) && i < |states|
    ensures forall key | key in states[i].db.outbox && uses(key) != ForOther ::
              NamesSeeker(states[i], key, states[i].db.outbox[key].externalReference)
    ensures forall s | s in states[i].db.seekers ::
              && (exists n :: 0 <= n < |states[i].db.audit| && OnlyEventOf(states[i].db.audit, n, s))
              && s in states[i].keyOf && states[i].keyOf[s] in states[i].db.outbox
  {
    var db := states[i].db;
    RunKeepsInv(states, steps, uses, i);
    forall s | s in db.seekers ensures exists n :: 0 <= n < |db.audit| && OnlyEventOf(db.audit, n, s) {
      OneEvent(db.audit, db.seekers, s);
    }
  }

  predicate NamesSeeker(st: State, key: Key, reference: Option<nat>) {
    reference.Some? && reference.value in st.db.seekers && reference.value in st.keyOf
    && st.keyOf[reference.value] == key
  }

  // ---------------------------------------------------------------- how many seekers a key has

  // the job seeker on the row of the key is the only one that was confirmed under it
  predicate HasOneSeeker(st: State, key: Key) {
    key in st.db.outbox
    && forall s | s in st.keyOf && st.keyOf[s] == key :: st.db.outbox[key].externalReference == Some(s)
  }

  // a call whose key check has found no job seeker, and which will make one
  predicate MissedUnder(call: Call, key: Key) {
    match call
    case Promoting(input, _, _, stage) => stage.HasMissed? && input.key == key
    case Confirming(own, _, _) => own == key
    case _ => false
  }

  // the step makes a job seeker under a key that has one
  predicate ConfirmsAgain(st: State, step: Step, key: Key) {
    (step.ConfirmStep? || step.ConfirmAloneStep?) && step.c in st.calls && MissedUnder(st.calls[step.c], key)
    && key in st.db.outbox
  }

  predicate Confirms(step: Step) {
    step.ConfirmStep? || step.ConfirmAloneStep?
  }

  // no other step touches the rows of such keys or makes job seekers
  lemma QuietForKeys(st: State, uses: Uses, step: Step, key: Key)
    requires Enabled(st, step, uses) && uses(key) != ForOther && !Confirms(step)
    ensures Apply(st, step, uses).keyOf == st.keyOf
    ensures key in Apply(st, step, uses).db.outbox <==> key in st.db.outbox
    ensures key in st.db.outbox ==> Apply(st, step, uses).db.outbox[key] == st.db.outbox[key]
  {
    hide Update, Refusal, Begin, Overwrite, MarkClosed, PromotedRow, WriteSeeker, StaleIds, KnownSeeker, Record;
  }

  // the key a confirm works under
  function KeyOf(call: Call): Key {
    match call
    case Promoting(input, _, _, _) => input.key
    case Confirming(key, _, _) => key
    case _ => 0
  }

  lemma ConfirmsForKeys(st: State, uses: Uses, step: Step)
    requires Enabled(st, step, uses) && Confirms(step)
    ensures var own := KeyOf(st.calls[step.c]);
            && MissedUnder(st.calls[step.c], own)
            && Apply(st, step, uses).keyOf == st.keyOf[step.newId := own]
            && Apply(st, step, uses).db.outbox == InsertIfAbsent(st.db.outbox, own, OutboxRow(true, Some(step.newId)))
  {
  }

  lemma KeyStep(st: State, uses: Uses, step: Step, key: Key)
    requires Inv(st, uses) && Enabled(st, step, uses) && uses(key) != ForOther
    ensures key in st.db.outbox ==>
              && key in Apply(st, step, uses).db.outbox
              && (HasOneSeeker(Apply(st, step, uses), key) <==> HasOneSeeker(st, key) && !ConfirmsAgain(st, step, key))
    ensures key !in st.db.outbox && key in Apply(st, step, uses).db.outbox ==>
              HasOneSeeker(Apply(st, step, uses), key)
  {
    hide Apply, RowsOk, CallsOk, AuditMatches;
    if Confirms(step) {
      ConfirmsForKeys(st, uses, step);
      KeysAreSeekers(st.db, st.keyOf, uses);
      ConfirmedKey(st, Apply(st, step, uses), uses, KeyOf(st.calls[step.c]), step.newId, key);
      OneKeyMissed(st.calls[step.c], key);
    } else {
      QuietForKeys(st, uses, step, key);
    }
  }

  lemma OneKeyMissed(call: Call, key: Key)
    requires MissedUnder(call, KeyOf(call))
    ensures MissedUnder(call, key) <==> key == KeyOf(call)
  {
  }

  lemma ConfirmedKey(st: State, later: State, uses: Uses, own: Key, newId: SeekerId, key: Key)
    requires KeysMatch(st.db, st.keyOf, uses) && newId !in st.keyOf && uses(key) != ForOther
    requires later.keyOf == st.keyOf[newId := own]
    requires later.db.outbox == InsertIfAbsent(st.db.outbox, own, OutboxRow(true, Some(newId)))
    ensures key in st.db.outbox ==> key in later.db.outbox
    ensures key in st.db.outbox ==> (HasOneSeeker(later, key) <==> HasOneSeeker(st, key) && key != own)
    ensures key !in st.db.outbox && key in later.db.outbox ==> HasOneSeeker(later, key)
  {
    if key in st.db.outbox {
      KnownKey(st.db, st.keyOf, uses, key);
      assert own == key ==> newId in later.keyOf && later.keyOf[newId] == key;
      assert forall s | s in st.keyOf :: s in later.keyOf && later.keyOf[s] == st.keyOf[s];
    }
  }

  lemma {:induction false} NoRowBefore(states: seq<State>, steps: seq<Step>, uses: Uses, i: nat, m: nat, key: Key)
    requires IsRun(states, steps, uses) && i <= m < |states| && uses(key) != ForOther
    requires key !in states[m].db.outbox
    ensures key !in states[i].db.outbox
    decreases m - i
  {
    hide Apply, Enabled, Inv, HasOneSeeker, ConfirmsAgain;
    if i < m {
      RunKeepsInv(states, steps, uses, m - 1);
      KeyStep(states[m - 1], uses, steps[m - 1], key);
      NoRowBefore(states, steps, uses, i, m - 1, key);
    }
  }

  /** A key has one job seeker exactly when no confirm under it has committed after another one had: the check comes
      before the insert, and the insert does not look again. */
  lemma {:induction false} OneSeekerIff(states: seq<State>, steps: seq<Step>, uses: Uses, m: nat, key: Key)
    requires IsRun(states, steps, uses) && m < |states| && key in states[m].db.outbox && uses(key) != ForOther
    ensures HasOneSeeker(states[m], key) <==> forall i | 0 <= i < m :: !ConfirmsAgain(states[i], steps[i], key)
    decreases m
  {
    hide Apply, Enabled, Inv, HasOneSeeker;
    var p := m - 1;
    RunKeepsInv(states, steps, uses, p);
    KeyStep(states[p], uses, steps[p], key);
    if key in states[p].db.outbox {
      OneSeekerIff(states, steps, uses, p, key);
    } else {
      forall i | 0 <= i < m ensures !ConfirmsAgain(states[i], steps[i], key) {
        NoRowBefore(states, steps, uses, i, p, key);
      }
    }
  }

  // whatever happens from here on, the key has one job seeker
  ghost predicate StaysOne(st: State, uses: Uses, key: Key) {
    forall states: seq<State>, steps: seq<Step> | IsPath(states, steps, uses) && states[0] == st ::
      HasOneSeeker(states[|steps|], key)
  }

  predicate NoneMissed(st: State, key: Key) {
    forall c | c in st.calls :: !MissedUnder(st.calls[c], key)
  }

  // who misses now did so before, or has just looked and found nothing
  lemma MissedBefore(st: State, uses: Uses, step: Step, c: CallId, key: Key)
    requires Enabled(st, step, uses)
    requires c in Apply(st, step, uses).calls && MissedUnder(Apply(st, step, uses).calls[c], key)
    ensures (c in st.calls && MissedUnder(st.calls[c], key))
         || (KnownSeeker(st.db.outbox, key).None? && step.LookStep? && step.c == c && st.calls[c].input.key == key)
         || (KnownSeeker(st.db.outbox, key).None? && step.LookAloneStep? && step.c == c && step.key == key)
  {
    hide WriteConfirm, Update, Begin, Refusal, Overwrite, MarkClosed, PromotedRow, WriteSeeker, StaleIds, Record,
         IsApplicationSetComplete, KnownSeeker;
  }

  // under a key that has a row no check misses any more
  lemma NoneMisses(st: State, uses: Uses, step: Step, key: Key)
    requires Inv(st, uses) && Enabled(st, step, uses) && key in st.db.outbox && uses(key) != ForOther
    requires NoneMissed(st, key)
    ensures NoneMissed(Apply(st, step, uses), key)
  {
    KnownKey(st.db, st.keyOf, uses, key);
    hide Inv, Apply, Enabled, MissedUnder;
    forall c | c in Apply(st, step, uses).calls ensures !MissedUnder(Apply(st, step, uses).calls[c], key) {
      if MissedUnder(Apply(st, step, uses).calls[c], key) {
        MissedBefore(st, uses, step, c, key);
      }
    }
  }

  lemma {:induction false} OneSeekerPath(states: seq<State>, steps: seq<Step>, uses: Uses, k: nat, key: Key)
    requires IsPath(states, steps, uses) && k <= |steps| && Inv(states[0], uses) && uses(key) != ForOther
    requires HasOneSeeker(states[0], key) && NoneMissed(states[0], key)
    ensures Inv(states[k], uses) && HasOneSeeker(states[k], key) && NoneMissed(states[k], key)
  {
    hide Apply, Enabled, Inv, MissedUnder;
    if k > 0 {
      OneSeekerPath(states, steps, uses, k - 1, key);
      var st, step := states[k - 1], steps[k - 1];
      StepKeepsInv(st, uses, step);
      KeyStep(st, uses, step, key);
      NoneMisses(st, uses, step, key);
    }
  }

  lemma MissedConfirmsAgain(st: State, uses: Uses, c: CallId, key: Key)
    requires Inv(st, uses) && c in st.calls && MissedUnder(st.calls[c], key)
    requires HasOneSeeker(st, key) && uses(key) != ForOther
    ensures !StaysOne(st, uses, key)
  {
    hide Inv, HasOneSeeker, Apply;
    var newId := UnusedId(st.db.seekers.Keys);
    var step := if st.calls[c].Promoting? then ConfirmStep(c, newId) else ConfirmAloneStep(c, newId);
    assert Enabled(st, step, uses);
    KeyInOutbox(st, key);
    KeyStep(st, uses, step, key);
    assert IsPath([st, Apply(st, step, uses)], [step], uses);
    assert [st, Apply(st, step, uses)][|[step]|] == Apply(st, step, uses);
  }

  lemma KeyInOutbox(st: State, key: Key)
    requires HasOneSeeker(st, key)
    ensures key in st.db.outbox
  {
  }

  /** A key with one job seeker keeps that one only, whatever happens next, exactly when no confirm whose check missed
      under it is in flight. */
  lemma OneSeekerForeverIff(states: seq<State>, steps: seq<Step>, uses: Uses, m: nat, key: Key)
    requires IsRun(states, steps, uses) && m < |states| && uses(key) != ForOther && HasOneSeeker(states[m], key)
    ensures StaysOne(states[m], uses, key) <==> NoneMissed(states[m], key)
  {
    hide Inv, IsRun, HasOneSeeker, MissedUnder;
    var st := states[m];
    RunKeepsInv(states, steps, uses, m);
    if NoneMissed(st, key) {
      forall path: seq<State>, more: seq<Step> | IsPath(path, more, uses) && path[0] == st
        ensures HasOneSeeker(path[|more|], key)
      {
        OneSeekerPath(path, more, uses, |more|, key);
      }
    } else {
      var c :| c in st.calls && MissedUnder(st.calls[c], key);
      MissedConfirmsAgain(st, uses, c, key);
    }
  }

  predicate HasSeeker(st: State, c: CallId) {
    c in st.calls && st.calls[c].Promoting? && (st.calls[c].stage.HasConfirmed? || st.calls[c].stage.HasWritten?)
  }

  /** Promotions that overlap, of one inquiry or of several, never work on one job seeker under two keys; under a key
      that has one job seeker they all work on that one. */
  lemma OverlappingPromotions(states: seq<State>, steps: seq<Step>, uses: Uses, i: nat, c: CallId, d: CallId)
    requires IsRun(states, steps, uses) && i < |states| && HasSeeker(states[i], c) && HasSeeker(states[i], d)
    ensures states[i].calls[c].stage.seeker == states[i].calls[d].stage.seeker ==>
              states[i].calls[c].input.key == states[i].calls[d].input.key
    ensures HasOneSeeker(states[i], states[i].calls[c].input.key) ==>
              (states[i].calls[c].stage.seeker == states[i].calls[d].stage.seeker
               <==> states[i].calls[c].input.key == states[i].calls[d].input.key)
  {
    var st := states[i];
    RunKeepsInv(states, steps, uses, i);
    hide AuditMatches, RowsOk, IsApplicationSetComplete, KeysMatch;
    OneCallOk(st, uses, c);
    OneCallOk(st, uses, d);
    hide CallsOk;
  }

  // ---------------------------------------------------------------- who wrote a promoted row

  // the step is the last commit of a promotion of the inquiry
  predicate Promotes(st: State, step: Step, id: Id) {
    && step.WriteInquiryStep? && step.c in st.calls && st.calls[step.c].Promoting?
    && st.calls[step.c].stage.HasWritten? && st.calls[step.c].input.inquiryId == id && id in st.db.inquiries
  }

  predicate HasRow(st: State, id: Id, row: Inquiry) {
    id in st.db.inquiries && st.db.inquiries[id] == row
  }

  // the step is the write of an update of the inquiry
  predicate WritesUpdate(st: State, step: Step, id: Id) {
    step.WriteUpdateStep? && step.c in st.calls && st.calls[step.c].Updating? && st.calls[step.c].id == id
  }

  // what a step makes of the row of an inquiry
  function RowAfter(st: State, uses: Uses, step: Step, id: Id): Inquiry
    requires Enabled(st, step, uses) && id in st.db.inquiries
  {
    var row := st.db.inquiries[id];
    match step
    case WriteUpdateStep(c, at) =>
      if st.calls[c].id == id then Overwrite(row, Update(st.calls[c].existing, st.calls[c].changes, at).row) else row
    case CloseOneStep(_, own, at) => if own == id then MarkClosed(row, at) else row
    case WriteInquiryStep(c) =>
      if st.calls[c].input.inquiryId == id
      then PromotedRow(row, st.calls[c].stage.seeker, st.calls[c].acceptedAt, st.now)
      else row
    case _ => row
  }

  lemma RowAfterStep(st: State, uses: Uses, step: Step, id: Id)
    requires Enabled(st, step, uses) && id in st.db.inquiries
    ensures HasRow(Apply(st, step, uses), id, RowAfter(st, uses, step, id))
  {
    hide Update, Refusal, Begin, Overwrite, PromotedRow, MarkClosed;
  }

  lemma NewRowIsOpen(st: State, uses: Uses, step: Step, id: Id)
    requires Enabled(st, step, uses) && id !in st.db.inquiries && id in Apply(st, step, uses).db.inquiries
    ensures Apply(st, step, uses).db.inquiries[id].status == Open
  {
    hide Update, Refusal, Begin, Overwrite, PromotedRow, MarkClosed, IsDmComplete;
  }

  lemma ReadsSound(st: State, uses: Uses, c: CallId)
    requires Inv(st, uses) && c in st.calls && st.calls[c].Updating?
    ensures RowSound(st.calls[c].existing) && Refusal(st.calls[c].existing, st.calls[c].changes).None?
  {
    hide RowsOk, RowSound, Refusal;
    OneCallOk(st, uses, c);
  }

  // an accepted update never leaves a promoted row
  lemma UpdateNeverPromotes(st: State, uses: Uses, step: Step, id: Id)
    requires Inv(st, uses) && Enabled(st, step, uses) && id in st.db.inquiries && WritesUpdate(st, step, id)
    ensures RowAfter(st, uses, step, id).status != Promoted
  {
    hide Inv, Update, Refusal, RowSound, Overwrite;
    ReadsSound(st, uses, step.c);
    UpdateSound(st.db.inquiries[id], st.calls[step.c].existing, st.calls[step.c].changes, step.at);
  }

  lemma PromotedByStep(st: State, uses: Uses, step: Step, id: Id)
    requires Inv(st, uses) && Enabled(st, step, uses)
    requires id in Apply(st, step, uses).db.inquiries && Apply(st, step, uses).db.inquiries[id].status == Promoted
    ensures id in st.db.inquiries
    ensures Promotes(st, step, id) || HasRow(Apply(st, step, uses), id, st.db.inquiries[id])
    ensures Promotes(st, step, id) ==>
              HasRow(Apply(st, step, uses), id,
                     PromotedRow(st.db.inquiries[id], st.calls[step.c].stage.seeker, st.calls[step.c].acceptedAt,
                                 st.now))
  {
    hide Inv, Apply, Update, Overwrite, PromotedRow;
    if id !in st.db.inquiries {
      NewRowIsOpen(st, uses, step, id);
    } else {
      RowAfterStep(st, uses, step, id);
      if WritesUpdate(st, step, id) {
        UpdateNeverPromotes(st, uses, step, id);
      }
    }
  }

  /** A promoted row is what some earlier last commit left of the row it found. */
  lemma {:induction false} PromotedBy(states: seq<State>, steps: seq<Step>, uses: Uses, m: nat, id: Id) returns (i: nat)
    requires IsRun(states, steps, uses) && m < |states|
    requires id in states[m].db.inquiries && states[m].db.inquiries[id].status == Promoted
    ensures i < m && Promotes(states[i], steps[i], id)
    ensures states[m].db.inquiries[id]
            == PromotedRow(states[i].db.inquiries[id], states[i].calls[steps[i].c].stage.seeker,
                                                      states[i].calls[steps[i].c].acceptedAt, states[i].now)
    decreases m
  {
    var p := m - 1;
    RunKeepsInv(states, steps, uses, p);
    PromotedByStep(states[p], uses, steps[p], id);
    hide Inv, Apply, Enabled, PromotedRow;
    if Promotes(states[p], steps[p], id) {
      i := p;
    } else {
      hide Promotes;
      i := PromotedBy(states, steps, uses, p, id);
    }
  }

  /** A promoted row has a complete set exactly when its last commit still found one: the write does not look. */
  lemma PromotedCompleteIff(states: seq<State>, steps: seq<Step>, uses: Uses, m: nat, id: Id) returns (i: nat)
    requires IsRun(states, steps, uses) && m < |states|
    requires id in states[m].db.inquiries && states[m].db.inquiries[id].status == Promoted
    ensures i < m && Promotes(states[i], steps[i], id)
    ensures !LacksPaper(states[m].db.inquiries[id].received) <==> !LacksPaper(states[i].db.inquiries[id].received)
  {
    hide IsRun, LacksPaper;
    i := PromotedBy(states, steps, uses, m, id);
  }

  // ---------------------------------------------------------------- who wrote the seeker

  // the step is the second commit of a promotion with this seeker
  predicate Writes(st: State, step: Step, s: SeekerId) {
    && step.WriteSeekerStep? && step.c in st.calls && st.calls[step.c].Promoting?
    && st.calls[step.c].stage == HasConfirmed(s)
  }

  // the second commit of a promotion has run on the seeker
  predicate Linked(st: State, s: SeekerId) {
    s in st.db.seekers && st.db.seekers[s].inquiryId.Some?
  }

  lemma SeekerWrittenByStep(st: State, uses: Uses, step: Step, s: SeekerId)
    requires Enabled(st, step, uses) && Linked(Apply(st, step, uses), s)
    ensures Writes(st, step, s) || (Linked(st, s) && Apply(st, step, uses).db.seekers[s] == st.db.seekers[s])
    ensures Writes(st, step, s) ==> Apply(st, step, uses).db.seekers[s].acceptedAt == st.calls[step.c].acceptedAt
  {
    hide Update, Refusal, Begin;
  }

  /** A job seeker of a promotion carries the date of the promotion that wrote it last. */
  lemma {:induction false} SeekerWrittenBy(states: seq<State>, steps: seq<Step>, uses: Uses, m: nat, s: SeekerId)
    returns (j: nat)
    requires IsRun(states, steps, uses) && m < |states| && Linked(states[m], s)
    ensures j < m && Writes(states[j], steps[j], s)
    ensures states[m].db.seekers[s].acceptedAt == states[j].calls[steps[j].c].acceptedAt
    decreases m
  {
    var p := m - 1;
    SeekerWrittenByStep(states[p], uses, steps[p], s);
    hide Apply, Enabled;
    if Writes(states[p], steps[p], s) {
      j := p;
    } else {
      hide Writes, Linked;
      j := SeekerWrittenBy(states, steps, uses, p, s);
    }
  }

  /** A promoted inquiry and its job seeker agree on the acceptance date exactly when the promotion that wrote the
      inquiry last and the one that wrote the seeker last had read one date; both were called with one key. */
  lemma DatesAgreeIff(states: seq<State>, steps: seq<Step>, uses: Uses, m: nat, id: Id, s: SeekerId)
    returns (i: nat, j: nat)
    requires IsRun(states, steps, uses) && m < |states|
    requires id in states[m].db.inquiries && states[m].db.inquiries[id].status == Promoted
    requires states[m].db.inquiries[id].promotedJobSeekerId == Some(s)
    ensures i < m && Promotes(states[i], steps[i], id) && j < m && Writes(states[j], steps[j], s)
    ensures states[i].calls[steps[i].c].input.key == states[j].calls[steps[j].c].input.key
    ensures s in states[m].db.seekers
    ensures states[m].db.inquiries[id].setReceivedAt == Some(states[m].db.seekers[s].acceptedAt)
            <==> states[i].calls[steps[i].c].acceptedAt == states[j].calls[steps[j].c].acceptedAt
  {
    InquiriesStaySafe(states, steps, uses, m, id);
    i := PromotedBy(states, steps, uses, m, id);
    j := SeekerWrittenBy(states, steps, uses, m, s);
    RunKeepsInv(states, steps, uses, i);
    RunKeepsInv(states, steps, uses, j);
    WriterKey(states[i], uses, steps[i].c);
    WriterKey(states[j], uses, steps[j].c);
    hide Inv, IsApplicationSetComplete;
    KeyOfKept(states, steps, uses, i, m, s);
    KeyOfKept(states, steps, uses, j, m, s);
  }

  lemma WriterKey(st: State, uses: Uses, c: CallId)
    requires Inv(st, uses) && HasSeeker(st, c)
    ensures st.calls[c].stage.seeker in st.keyOf && st.keyOf[st.calls[c].stage.seeker] == st.calls[c].input.key
  {
    hide RowsOk, KeysMatch, AuditMatches, IsApplicationSetComplete, Marked;
    OneCallOk(st, uses, c);
  }

  lemma KeyOfKeptByStep(st: State, uses: Uses, step: Step, s: SeekerId)
    requires Inv(st, uses) && Enabled(st, step, uses) && s in st.keyOf
    ensures s in Apply(st, step, uses).keyOf && Apply(st, step, uses).keyOf[s] == st.keyOf[s]
  {
    hide KeysMatch, AuditMatches, RowsOk, CallsOk, Update, Refusal, Begin;
    KeysAreSeekers(st.db, st.keyOf, uses);
  }

  lemma {:induction false} KeyOfKept(states: seq<State>, steps: seq<Step>, uses: Uses, i: nat, m: nat, s: SeekerId)
    requires IsRun(states, steps, uses) && i <= m < |states| && s in states[i].keyOf
    ensures s in states[m].keyOf && states[m].keyOf[s] == states[i].keyOf[s]
    decreases m - i
  {
    hide Apply, Enabled, Inv;
    if i < m {
      KeyOfKept(states, steps, uses, i, m - 1, s);
      RunKeepsInv(states, steps, uses, m - 1);
      KeyOfKeptByStep(states[m - 1], uses, steps[m - 1], s);
    }
  }

  // ---------------------------------------------------------------- who wrote a closed row

  // the set is incomplete and was sent at least seven days before the inquiry was closed
  predicate ClosedSafe(row: Inquiry) {
    && LacksPaper(row.received)
    && row.setSentAt.Some? && row.closedAt.Some?
    && row.closedAt.value >= row.setSentAt.value + 604_800_000
  }

  // the step closes the inquiry, lazily in an update or in bulk
  predicate ClosesLate(st: State, step: Step, id: Id) {
    && step.WriteUpdateStep? && step.c in st.calls && st.calls[step.c].Updating? && st.calls[step.c].id == id
    && id in st.db.inquiries && Update(st.calls[step.c].existing, st.calls[step.c].changes, step.at).autoClosed
  }

  predicate ClosesOne(st: State, step: Step, id: Id) {
    step.CloseOneStep? && step.id == id && id in st.db.inquiries
  }

  // the row the step finds is still incomplete and was sent seven days before the time the step writes
  predicate FindsStale(st: State, step: Step, id: Id)
    requires ClosesOne(st, step, id)
  {
    var found := st.db.inquiries[id];
    LacksPaper(found.received) && found.setSentAt.Some? && found.setSentAt.value + 604_800_000 <= step.at
  }

  lemma LazyCloseIsSafe(found: Inquiry, existing: Inquiry, changes: UpdateInput, at: int)
    requires Refusal(existing, changes).None?
    ensures Update(existing, changes, at).autoClosed
            <==> Overwrite(found, Update(existing, changes, at).row).status == Closed
    ensures Update(existing, changes, at).autoClosed ==> ClosedSafe(Overwrite(found, Update(existing, changes, at).row))
  {
    CompleteIff(MergeReceived(existing.received, changes));
    hide MergeAnswers, MergeReceived, IsDmComplete, IsApplicationSetComplete, LacksPaper;
  }

  lemma LateClose(st: State, uses: Uses, step: Step, id: Id)
    requires Inv(st, uses) && Enabled(st, step, uses) && id in st.db.inquiries && WritesUpdate(st, step, id)
    ensures RowAfter(st, uses, step, id).status == Closed <==> ClosesLate(st, step, id)
    ensures ClosesLate(st, step, id) ==> ClosedSafe(RowAfter(st, uses, step, id))
  {
    hide Inv, Update, Refusal, RowSound, Overwrite, ClosedSafe;
    ReadsSound(st, uses, step.c);
    LazyCloseIsSafe(st.db.inquiries[id], st.calls[step.c].existing, st.calls[step.c].changes, step.at);
  }

  lemma ClosedByStep(st: State, uses: Uses, step: Step, id: Id)
    requires Inv(st, uses) && Enabled(st, step, uses)
    requires id in Apply(st, step, uses).db.inquiries && Apply(st, step, uses).db.inquiries[id].status == Closed
    ensures id in st.db.inquiries
    ensures ClosesLate(st, step, id) || ClosesOne(st, step, id)
            || HasRow(Apply(st, step, uses), id, st.db.inquiries[id])
    ensures ClosesLate(st, step, id) ==> ClosedSafe(Apply(st, step, uses).db.inquiries[id])
    ensures ClosesOne(st, step, id) ==>
              (ClosedSafe(Apply(st, step, uses).db.inquiries[id]) <==> FindsStale(st, step, id))
  {
    hide Inv, Apply, Update, Overwrite, IsApplicationSetComplete;
    if id !in st.db.inquiries {
      NewRowIsOpen(st, uses, step, id);
    } else {
      RowAfterStep(st, uses, step, id);
      if WritesUpdate(st, step, id) {
        LateClose(st, uses, step, id);
      }
    }
  }

  /** A closed row is sound exactly when its close came in an update, or in bulk while the row was still stale: the
      bulk close writes without looking again. */
  lemma {:induction false} ClosedSoundIff(states: seq<State>, steps: seq<Step>, uses: Uses, m: nat, id: Id)
    returns (i: nat)
    requires IsRun(states, steps, uses) && m < |states|
    requires id in states[m].db.inquiries && states[m].db.inquiries[id].status == Closed
    ensures i < m && HasRow(states[i + 1], id, states[m].db.inquiries[id])
    ensures ClosesLate(states[i], steps[i], id) || ClosesOne(states[i], steps[i], id)
    ensures ClosedSafe(states[m].db.inquiries[id])
            <==> ClosesLate(states[i], steps[i], id) || FindsStale(states[i], steps[i], id)
    decreases m
  {
    var p := m - 1;
    RunKeepsInv(states, steps, uses, p);
    ClosedByStep(states[p], uses, steps[p], id);
    hide Inv, Apply, Enabled, ClosedSafe, FindsStale;
    if ClosesLate(states[p], steps[p], id) || ClosesOne(states[p], steps[p], id) {
      i := p;
    } else {
      hide ClosesLate, ClosesOne;
      i := ClosedSoundIff(states, steps, uses, p, id);
    }
  }

  // ---------------------------------------------------------------- when a final row stays

  predicate On(call: Call, id: Id) {
    match call
    case Promoting(input, _, _, _) => input.inquiryId == id
    case Updating(own, _, _, _) => own == id
    case Closing(ids, _) => id in ids
    case Confirming(_, _, _) => false
  }

  predicate NoneOn(st: State, id: Id) {
    forall c | c in st.calls :: !On(st.calls[c], id)
  }

  predicate IsFinal(row: Inquiry) {
    row.status == Promoted || row.status == Closed
  }

  // whatever happens from here on, the row stays as it is
  ghost predicate NeverChanges(st: State, uses: Uses, id: Id) {
    id in st.db.inquiries
    && forall states, steps | IsPath(states, steps, uses) && states[0] == st ::
      HasRow(states[|steps|], id, st.db.inquiries[id])
  }

  /** The exact change of a final status: a promoted row is unpromoted by the write of an update that read it earlier,
      or by a bulk close that selected it earlier; a closed row is reopened by such an update, or promoted. */
  lemma FinalStatusChangesIff(states: seq<State>, steps: seq<Step>, uses: Uses, i: nat, id: Id)
    requires IsRun(states, steps, uses) && i < |steps| && id in states[i].db.inquiries
    ensures id in states[i + 1].db.inquiries
    ensures states[i].db.inquiries[id].status == Promoted ==>
              (states[i + 1].db.inquiries[id].status != Promoted
               <==> ClosesOne(states[i], steps[i], id) || WritesUpdate(states[i], steps[i], id))
    ensures states[i].db.inquiries[id].status == Closed ==>
              (states[i + 1].db.inquiries[id].status != Closed
               <==> Promotes(states[i], steps[i], id)
                    || (WritesUpdate(states[i], steps[i], id) && !ClosesLate(states[i], steps[i], id)))
  {
    RunKeepsInv(states, steps, uses, i);
    StatusStep(states[i], uses, steps[i], id);
    hide *;
  }

  lemma StatusStep(st: State, uses: Uses, step: Step, id: Id)
    requires Inv(st, uses) && Enabled(st, step, uses) && id in st.db.inquiries
    ensures id in Apply(st, step, uses).db.inquiries
    ensures st.db.inquiries[id].status == Promoted ==>
              (Apply(st, step, uses).db.inquiries[id].status != Promoted
               <==> ClosesOne(st, step, id) || WritesUpdate(st, step, id))
    ensures st.db.inquiries[id].status == Closed ==>
              (Apply(st, step, uses).db.inquiries[id].status != Closed
               <==> Promotes(st, step, id) || (WritesUpdate(st, step, id) && !ClosesLate(st, step, id)))
  {
    hide Inv, Apply, Update, Overwrite, ClosedSafe;
    RowAfterStep(st, uses, step, id);
    if WritesUpdate(st, step, id) {
      UpdateNeverPromotes(st, uses, step, id);
      LateClose(st, uses, step, id);
    }
  }

  lemma NoneStarts(st: State, uses: Uses, step: Step, id: Id)
    requires Enabled(st, step, uses) && id in st.db.inquiries && IsFinal(st.db.inquiries[id]) && NoneOn(st, id)
    requires st.db.inquiries[id].status == Promoted ==> st.db.inquiries[id].promotedJobSeekerId.Some?
    ensures NoneOn(Apply(st, step, uses), id)
  {
    hide WriteConfirm, Update, IsApplicationSetComplete, Overwrite, PromotedRow, MarkClosed, IsDmComplete;
  }

  lemma QuietStays(st: State, uses: Uses, step: Step, id: Id)
    requires Inv(st, uses) && Enabled(st, step, uses)
    requires id in st.db.inquiries && IsFinal(st.db.inquiries[id]) && NoneOn(st, id)
    ensures HasRow(Apply(st, step, uses), id, st.db.inquiries[id]) && NoneOn(Apply(st, step, uses), id)
  {
    hide Apply, CallsOk, RowsOk, Marked, RowSound, Update, Overwrite, PromotedRow, MarkClosed;
    OneRowOk(st, uses, id);
    NoneStarts(st, uses, step, id);
    RowAfterStep(st, uses, step, id);
    if step.WriteUpdateStep? || step.CloseOneStep? || step.WriteInquiryStep? {
      assert !On(st.calls[step.c], id);
    }
  }

  lemma {:induction false} QuietPath(states: seq<State>, steps: seq<Step>, uses: Uses, k: nat, id: Id)
    requires IsPath(states, steps, uses) && k <= |steps| && Inv(states[0], uses)
    requires id in states[0].db.inquiries && IsFinal(states[0].db.inquiries[id]) && NoneOn(states[0], id)
    ensures Inv(states[k], uses) && HasRow(states[k], id, states[0].db.inquiries[id]) && NoneOn(states[k], id)
  {
    hide Apply, Enabled, Inv, NoneOn;
    if k > 0 {
      QuietPath(states, steps, uses, k - 1, id);
      QuietStays(states[k - 1], uses, steps[k - 1], id);
      StepKeepsInv(states[k - 1], uses, steps[k - 1]);
    }
  }

  // some continuation writes the row after the time t
  ghost predicate CanWrite(st: State, uses: Uses, id: Id, t: int) {
    exists states, steps :: IsPath(states, steps, uses) && states[0] == st && WrittenAfter(states[|steps|], id, t)
  }

  predicate WrittenAfter(st: State, id: Id, t: int) {
    id in st.db.inquiries && st.db.inquiries[id].updatedAt > t
  }

  lemma CanWriteNow(st: State, uses: Uses, id: Id, t: int)
    requires WrittenAfter(st, id, t)
    ensures CanWrite(st, uses, id, t)
  {
    assert IsPath([st], [], uses) && [st][0] == st && WrittenAfter([st][0], id, t);
  }

  lemma CanWriteNext(st: State, step: Step, uses: Uses, id: Id, t: int)
    requires Enabled(st, step, uses) && CanWrite(Apply(st, step, uses), uses, id, t)
    ensures CanWrite(st, uses, id, t)
  {
    hide Apply, Enabled, WrittenAfter;
    var states, steps :| IsPath(states, steps, uses) && states[0] == Apply(st, step, uses)
      && WrittenAfter(states[|steps|], id, t);
    var longer, more := [st] + states, [step] + steps;
    assert IsPath(longer, more, uses);
    assert longer[0] == st && longer[|more|] == states[|steps|];
  }

  lemma LastWrite(st: State, step: Step, uses: Uses, id: Id, t: int)
    requires Enabled(st, step, uses) && WrittenAfter(Apply(st, step, uses), id, t)
    ensures CanWrite(st, uses, id, t)
  {
    hide Apply, Enabled, CanWrite, WrittenAfter;
    CanWriteNow(Apply(st, step, uses), uses, id, t);
    CanWriteNext(st, step, uses, id, t);
  }

  lemma WrittenCanWrite(st: State, uses: Uses, c: CallId, id: Id, t: int)
    requires Inv(st, uses) && c in st.calls && On(st.calls[c], id) && st.now > t
    requires st.calls[c].Promoting? && st.calls[c].stage.HasWritten?
    ensures CanWrite(st, uses, id, t)
  {
    hide CanWrite, RowsOk, CallsOk, IsApplicationSetComplete, Marked;
    OneCallOk(st, uses, c);
    LastWrite(st, WriteInquiryStep(c), uses, id, t);
  }

  lemma ConfirmedCanWrite(st: State, uses: Uses, c: CallId, id: Id, t: int)
    requires Inv(st, uses) && c in st.calls && On(st.calls[c], id) && st.now > t
    requires st.calls[c].Promoting? && st.calls[c].stage.HasConfirmed?
    ensures CanWrite(st, uses, id, t)
  {
    hide CanWrite, Inv;
    StepKeepsInv(st, uses, WriteSeekerStep(c));
    WrittenCanWrite(Apply(st, WriteSeekerStep(c), uses), uses, c, id, t);
    CanWriteNext(st, WriteSeekerStep(c), uses, id, t);
  }

  lemma MissedCanWrite(st: State, uses: Uses, c: CallId, id: Id, t: int)
    requires Inv(st, uses) && c in st.calls && On(st.calls[c], id) && st.now > t
    requires st.calls[c].Promoting? && st.calls[c].stage.HasMissed?
    ensures CanWrite(st, uses, id, t)
  {
    hide CanWrite, Inv, WriteConfirm;
    var newId := UnusedId(st.db.seekers.Keys);
    StepKeepsInv(st, uses, ConfirmStep(c, newId));
    ConfirmedCanWrite(Apply(st, ConfirmStep(c, newId), uses), uses, c, id, t);
    CanWriteNext(st, ConfirmStep(c, newId), uses, id, t);
  }

  lemma ReadCanWrite(st: State, uses: Uses, c: CallId, id: Id, t: int)
    requires Inv(st, uses) && c in st.calls && On(st.calls[c], id) && st.now > t
    requires st.calls[c].Promoting? && st.calls[c].stage.HasRead?
    ensures CanWrite(st, uses, id, t)
  {
    hide CanWrite, Inv;
    var looked := Apply(st, LookStep(c), uses);
    StepKeepsInv(st, uses, LookStep(c));
    if looked.calls[c].stage.HasMissed? {
      MissedCanWrite(looked, uses, c, id, t);
    } else {
      ConfirmedCanWrite(looked, uses, c, id, t);
    }
    CanWriteNext(st, LookStep(c), uses, id, t);
  }

  lemma UpdateCanWrite(st: State, uses: Uses, c: CallId, id: Id, t: int)
    requires Inv(st, uses) && c in st.calls && On(st.calls[c], id) && st.now > t && st.calls[c].Updating?
    ensures CanWrite(st, uses, id, t)
  {
    hide CanWrite, RowsOk, CallsOk, MergeAnswers, MergeReceived, IsDmComplete, IsApplicationSetComplete, RowSound;
    OneCallOk(st, uses, c);
    LastWrite(st, WriteUpdateStep(c, st.now), uses, id, t);
  }

  lemma CloseCanWrite(st: State, uses: Uses, c: CallId, id: Id, t: int)
    requires Inv(st, uses) && c in st.calls && On(st.calls[c], id) && st.now > t && st.calls[c].Closing?
    ensures CanWrite(st, uses, id, t)
  {
    hide CanWrite, RowsOk, CallsOk;
    OneCallOk(st, uses, c);
    LastWrite(st, CloseOneStep(c, id, st.now), uses, id, t);
  }

  // a call on an inquiry can always be brought to write it once more
  lemma CallCanWrite(st: State, uses: Uses, c: CallId, id: Id, t: int)
    requires Inv(st, uses) && c in st.calls && On(st.calls[c], id)
    ensures CanWrite(st, uses, id, t)
  {
    hide CanWrite, Inv;
    var tick := TickStep(if st.now > t then st.now else t + 1);
    var later := Apply(st, tick, uses);
    StepKeepsInv(st, uses, tick);
    match st.calls[c] {
      case Promoting(_, _, _, HasRead) => ReadCanWrite(later, uses, c, id, t);
      case Promoting(_, _, _, HasMissed) => MissedCanWrite(later, uses, c, id, t);
      case Promoting(_, _, _, HasConfirmed(_)) => ConfirmedCanWrite(later, uses, c, id, t);
      case Promoting(_, _, _, HasWritten(_)) => WrittenCanWrite(later, uses, c, id, t);
      case Updating(_, _, _, _) => UpdateCanWrite(later, uses, c, id, t);
      case Closing(_, _) => CloseCanWrite(later, uses, c, id, t);
    }
    CanWriteNext(st, tick, uses, id, t);
  }

  lemma QuietNeverChanges(st: State, uses: Uses, id: Id)
    requires Inv(st, uses) && id in st.db.inquiries && IsFinal(st.db.inquiries[id]) && NoneOn(st, id)
    ensures NeverChanges(st, uses, id)
  {
    hide Inv, NoneOn, HasRow;
    forall states, steps | IsPath(states, steps, uses) && states[0] == st
      ensures HasRow(states[|steps|], id, st.db.inquiries[id])
    {
      QuietPath(states, steps, uses, |steps|, id);
    }
  }

  /** A promoted or closed inquiry is final, whatever happens next, exactly when no call on it is in flight. */
  lemma FinalForeverIff(states: seq<State>, steps: seq<Step>, uses: Uses, m: nat, id: Id)
    requires IsRun(states, steps, uses) && m < |states|
    requires id in states[m].db.inquiries && IsFinal(states[m].db.inquiries[id])
    ensures NeverChanges(states[m], uses, id) <==> NoneOn(states[m], id)
  {
    hide Inv, IsRun;
    var st := states[m];
    RunKeepsInv(states, steps, uses, m);
    if NoneOn(st, id) {
      QuietNeverChanges(st, uses, id);
    } else {
      var c :| c in st.calls && On(st.calls[c], id);
      CallCanWrite(st, uses, c, id, st.db.inquiries[id].updatedAt);
    }
  }
}
