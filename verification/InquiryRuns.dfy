/** Inquiries over whole runs. Every call stops between its statements: an update and a bulk close between their read
    and their writes, a promotion between its three commits, a confirm between its key check and its commit. Any
    number of calls overlap, on the same inquiry and under the same key too, and each may crash anywhere. */
module InquiryRuns {
  import opened Tables
  import opened Inquiries

  type CallId = nat

  // what an idempotency key is used for
  datatype Use = ForInquiry(id: Id) | ForConfirm | ForOther

  type Uses = Key -> Use

  // `HasMissed`: the key check of the confirm has found no job seeker
  datatype Stage = HasRead | HasMissed | HasConfirmed(seeker: SeekerId) | HasWritten(seeker: SeekerId)

  // a call between two of its statements, with what it has read
  datatype Call =
    | Promoting(input: PromoteInput, existing: Inquiry, acceptedAt: Day, stage: Stage)
    | Updating(id: Id, existing: Inquiry, changes: UpdateInput, readAt: int)
    | Closing(ids: set<Id>, selectedAt: int)
    | Confirming(key: Key, details: nat, acceptedAt: Day) // a plain confirm whose key check has found none

  // `keyOf` remembers under which key a seeker was confirmed
  datatype State = State(db: Db, now: int, calls: map<CallId, Call>, keyOf: map<SeekerId, Key>)

  // `at` is what a call takes for the present, some time after its read; `begun` is before the read
  datatype Step =
    | RecordStep(id: Id, channel: Channel, answers: DmAnswers)
    | ReadUpdateStep(c: CallId, id: Id, changes: UpdateInput)
    | WriteUpdateStep(c: CallId, at: int)
    | SelectStaleStep(c: CallId, begun: int)
    | CloseOneStep(c: CallId, id: Id, at: int)
    | BeginStep(c: CallId, input: PromoteInput)
    | LookStep(c: CallId)
    | ConfirmStep(c: CallId, newId: SeekerId)
    | WriteSeekerStep(c: CallId)
    | WriteInquiryStep(c: CallId)
    | CrashStep(c: CallId)
    | LookAloneStep(c: CallId, key: Key, details: nat, acceptedAt: Day)
    | ConfirmAloneStep(c: CallId, newId: SeekerId)
    | EnqueueStep(key: Key, reference: Option<nat>)
    | TickStep(later: int)

  // ids are new where they are made, and a key has one use
  predicate Enabled(st: State, step: Step, uses: Uses) {
    match step
    case RecordStep(id, _, _) => id !in st.db.inquiries
    case ReadUpdateStep(c, _, _) => c !in st.calls
    case WriteUpdateStep(c, at) => c in st.calls && st.calls[c].Updating? && st.calls[c].readAt <= at <= st.now
    case SelectStaleStep(c, begun) => c !in st.calls && begun <= st.now
    case CloseOneStep(c, id, at) =>
      c in st.calls && st.calls[c].Closing? && id in st.calls[c].ids && st.calls[c].selectedAt <= at <= st.now
    case BeginStep(c, input) => c !in st.calls && uses(input.key) == ForInquiry(input.inquiryId)
    case LookStep(c) => c in st.calls && st.calls[c].Promoting? && st.calls[c].stage == HasRead
    case ConfirmStep(c, newId) =>
      c in st.calls && st.calls[c].Promoting? && st.calls[c].stage == HasMissed && newId !in st.db.seekers
    case WriteSeekerStep(c) => c in st.calls && st.calls[c].Promoting? && st.calls[c].stage.HasConfirmed?
    case WriteInquiryStep(c) => c in st.calls && st.calls[c].Promoting? && st.calls[c].stage.HasWritten?
    case CrashStep(c) => c in st.calls
    case LookAloneStep(c, key, _, _) => c !in st.calls && uses(key) == ForConfirm
    case ConfirmAloneStep(c, newId) => c in st.calls && st.calls[c].Confirming? && newId !in st.db.seekers
    case EnqueueStep(key, _) => uses(key) == ForOther
    case TickStep(later) => st.now <= later
  }

  // the ids that a bulk close selects and does not skip
  function StaleIds(inquiries: map<Id, Inquiry>, begun: int): set<Id> {
    set id | id in inquiries && ClosesInBulk(inquiries[id], begun)
  }

  // a confirm inserts its rows, and the key it was for is remembered
  function AfterConfirm(st: State, key: Key, details: nat, acceptedAt: Day, newId: SeekerId): State {
    st.(db := WriteConfirm(st.db, key, details, acceptedAt, newId, st.now), keyOf := st.keyOf[newId := key])
  }

  function WithRow(st: State, id: Id, row: Inquiry): State {
    st.(db := st.db.(inquiries := st.db.inquiries[id := row]))
  }

  function WithCall(st: State, c: CallId, call: Call): State {
    st.(calls := st.calls[c := call])
  }

  function Ended(st: State, c: CallId): State {
    st.(calls := st.calls - {c})
  }

  function AfterReadUpdate(st: State, c: CallId, id: Id, changes: UpdateInput): State {
    if id !in st.db.inquiries || Refusal(st.db.inquiries[id], changes).Some? then st
    else WithCall(st, c, Updating(id, st.db.inquiries[id], changes, st.now))
  }

  function AfterWriteUpdate(st: State, c: CallId, at: int): State
    requires c in st.calls && st.calls[c].Updating?
  {
    var call := st.calls[c];
    if call.id !in st.db.inquiries then Ended(st, c)
    else
      WithRow(Ended(st, c), call.id, Overwrite(st.db.inquiries[call.id], Update(call.existing, call.changes, at).row))
  }

  function AfterCloseOne(st: State, c: CallId, id: Id, at: int): State
    requires c in st.calls && st.calls[c].Closing?
  {
    var rest := WithCall(st, c, st.calls[c].(ids := st.calls[c].ids - {id}));
    if id !in st.db.inquiries then rest else WithRow(rest, id, MarkClosed(st.db.inquiries[id], at))
  }

  function AfterBegin(st: State, c: CallId, input: PromoteInput): State {
    var begun := Begin(st.db.inquiries, input);
    if !begun.Proceed? then st else WithCall(st, c, Promoting(input, begun.existing, begun.acceptedAt, HasRead))
  }

  function AfterLook(st: State, c: CallId): State
    requires c in st.calls && st.calls[c].Promoting?
  {
    var call := st.calls[c];
    match KnownSeeker(st.db.outbox, call.input.key)
    case Some(known) => WithCall(st, c, call.(stage := HasConfirmed(known)))
    case None => WithCall(st, c, call.(stage := HasMissed))
  }

  function AfterConfirmStep(st: State, c: CallId, newId: SeekerId): State
    requires c in st.calls && st.calls[c].Promoting?
  {
    var call := st.calls[c];
    WithCall(AfterConfirm(st, call.input.key, call.input.details, call.acceptedAt, newId), c,
             call.(stage := HasConfirmed(newId)))
  }

  function AfterLookAlone(st: State, c: CallId, key: Key, details: nat, acceptedAt: Day): State {
    if KnownSeeker(st.db.outbox, key).Some? then st else WithCall(st, c, Confirming(key, details, acceptedAt))
  }

  function AfterConfirmAlone(st: State, c: CallId, newId: SeekerId): State
    requires c in st.calls && st.calls[c].Confirming?
  {
    Ended(AfterConfirm(st, st.calls[c].key, st.calls[c].details, st.calls[c].acceptedAt, newId), c)
  }

  function AfterWriteSeeker(st: State, c: CallId): State
    requires c in st.calls && st.calls[c].Promoting? && st.calls[c].stage.HasConfirmed?
  {
    var call := st.calls[c];
    var s := call.stage.seeker;
    var seekers := WriteSeeker(st.db.seekers, s, call.input.inquiryId, call.existing.channel, call.acceptedAt, st.now);
    WithCall(st.(db := st.db.(seekers := seekers)), c, call.(stage := HasWritten(s)))
  }

  // the row that the last commit of a promotion makes of the one it finds
  function PromotedRow(found: Inquiry, s: SeekerId, acceptedAt: Day, now: int): Inquiry {
    found.(status := Promoted, promotedJobSeekerId := Some(s), setReceivedAt := Some(acceptedAt), updatedAt := now)
  }

  function AfterWriteInquiry(st: State, c: CallId): State
    requires c in st.calls && st.calls[c].Promoting? && st.calls[c].stage.HasWritten?
  {
    var call := st.calls[c];
    var id := call.input.inquiryId;
    if id !in st.db.inquiries then Ended(st, c)
    else WithRow(Ended(st, c), id, PromotedRow(st.db.inquiries[id], call.stage.seeker, call.acceptedAt, st.now))
  }

  function Apply(st: State, step: Step, uses: Uses): State
    requires Enabled(st, step, uses)
  {
    match step
    case RecordStep(id, channel, answers) => WithRow(st, id, Record(channel, answers, st.now))
    case ReadUpdateStep(c, id, changes) => AfterReadUpdate(st, c, id, changes)
    case WriteUpdateStep(c, at) => AfterWriteUpdate(st, c, at)
    case SelectStaleStep(c, begun) => WithCall(st, c, Closing(StaleIds(st.db.inquiries, begun), st.now))
    case CloseOneStep(c, id, at) => AfterCloseOne(st, c, id, at)
    case BeginStep(c, input) => AfterBegin(st, c, input)
    case LookStep(c) => AfterLook(st, c)
    case ConfirmStep(c, newId) => AfterConfirmStep(st, c, newId)
    case WriteSeekerStep(c) => AfterWriteSeeker(st, c)
    case WriteInquiryStep(c) => AfterWriteInquiry(st, c)
    case CrashStep(c) => Ended(st, c)
    case LookAloneStep(c, key, details, acceptedAt) => AfterLookAlone(st, c, key, details, acceptedAt)
    case ConfirmAloneStep(c, newId) => AfterConfirmAlone(st, c, newId)
    case EnqueueStep(key, reference) =>
      st.(db := st.db.(outbox := InsertIfAbsent(st.db.outbox, key, OutboxRow(false, reference))))
    case TickStep(later) => st.(now := later)
  }

  ghost predicate IsPath(states: seq<State>, steps: seq<Step>, uses: Uses) {
    && |states| == |steps| + 1
    && forall i | 0 <= i < |steps| ::
      Enabled(states[i], steps[i], uses) && states[i + 1] == Apply(states[i], steps[i], uses)
  }

  predicate Initial(st: State) {
    st.db == Db(map[], map[], map[], []) && st.calls == map[] && st.keyOf == map[]
  }

  ghost predicate IsRun(states: seq<State>, steps: seq<Step>, uses: Uses) {
    IsPath(states, steps, uses) && Initial(states[0])
  }

  // ---------------------------------------------------------------- what every reachable state keeps

  // a seeker confirmed under a key of the inquiry, and written by a promotion of it
  predicate Marked(st: State, uses: Uses, id: Id, s: SeekerId) {
    && id in st.db.inquiries && s in st.db.seekers && s in st.keyOf
    && uses(st.keyOf[s]) == ForInquiry(id)
    && st.db.seekers[s].inquiryId == Some(id)
    && st.db.seekers[s].applicationChannel == Some(st.db.inquiries[id].channel)
  }

  // the columns an update writes together agree
  predicate RowSound(row: Inquiry) {
    && row.dmComplete == IsDmComplete(row.dmAnswers)
    && (row.status == Open ==> row.setSentAt.None?)
    && (row.status == SetSent ==> row.setSentAt.Some?)
  }

  predicate RowOk(st: State, uses: Uses, id: Id, row: Inquiry) {
    && RowSound(row)
    && (row.status == Promoted ==>
          row.promotedJobSeekerId.Some? && row.setReceivedAt.Some?
            && Marked(st, uses, id, row.promotedJobSeekerId.value))
  }

  predicate RowsOk(st: State, uses: Uses) {
    forall id | id in st.db.inquiries :: RowOk(st, uses, id, st.db.inquiries[id])
  }

  predicate NotFinal(row: Inquiry) {
    row.status == Open || row.status == SetSent
  }

  predicate StageOk(st: State, uses: Uses, input: PromoteInput, stage: Stage) {
    match stage
    case HasRead => true
    case HasMissed => true
    case HasConfirmed(s) => s in st.db.seekers && s in st.keyOf && st.keyOf[s] == input.key
    case HasWritten(s) => s in st.keyOf && st.keyOf[s] == input.key && Marked(st, uses, input.inquiryId, s)
  }

  predicate PromotionOk(st: State, uses: Uses, call: Call)
    requires call.Promoting?
  {
    && call.input.inquiryId in st.db.inquiries
    && uses(call.input.key) == ForInquiry(call.input.inquiryId)
    && call.existing.channel == st.db.inquiries[call.input.inquiryId].channel
    && NotFinal(call.existing) && IsApplicationSetComplete(call.existing.received)
    && call.acceptedAt == OrElse(call.existing.setReceivedAt, call.input.acceptedAt)
    && StageOk(st, uses, call.input, call.stage)
  }

  predicate CallOk(st: State, uses: Uses, call: Call) {
    match call
    case Promoting(_, _, _, _) => PromotionOk(st, uses, call)
    case Updating(id, existing, changes, readAt) =>
      id in st.db.inquiries && RowSound(existing) && Refusal(existing, changes).None? && readAt <= st.now
    case Closing(ids, selectedAt) => ids <= st.db.inquiries.Keys && selectedAt <= st.now
    case Confirming(key, _, _) => uses(key) == ForConfirm
  }

  predicate CallsOk(st: State, uses: Uses) {
    forall c | c in st.calls :: CallOk(st, uses, st.calls[c])
  }

  // one key for a seeker, and one of its seekers on the row of a key
  predicate KeysMatch(db: Db, keyOf: map<SeekerId, Key>, uses: Uses) {
    && keyOf.Keys == db.seekers.Keys
    && (forall s | s in keyOf :: keyOf[s] in db.outbox && uses(keyOf[s]) != ForOther)
    && (forall key | key in db.outbox && uses(key) != ForOther ::
          && db.outbox[key].seekerConfirmed && db.outbox[key].externalReference.Some?
          && db.outbox[key].externalReference.value in keyOf && keyOf[db.outbox[key].externalReference.value] == key)
  }

  // one audit event for a seeker
  predicate AuditMatches(audit: seq<Confirmed>, seekers: map<SeekerId, Seeker>) {
    && (forall i | 0 <= i < |audit| :: audit[i].aggregateId in seekers)
    && (forall i, j | 0 <= i < j < |audit| :: audit[i].aggregateId != audit[j].aggregateId)
    && (forall s | s in seekers :: exists i :: 0 <= i < |audit| && audit[i].aggregateId == s)
  }

  predicate Inv(st: State, uses: Uses) {
    RowsOk(st, uses) && CallsOk(st, uses) && KeysMatch(st.db, st.keyOf, uses)
      && AuditMatches(st.db.audit, st.db.seekers)
  }

  // ---------------------------------------------------------------- what a step leaves alone

  // inquiries keep their channels, seekers their keys and their marks
  ghost predicate Kept(st: State, later: State, uses: Uses) {
    && (forall id | id in st.db.inquiries ::
          id in later.db.inquiries && later.db.inquiries[id].channel == st.db.inquiries[id].channel)
    && (forall s | s in st.keyOf :: s in later.keyOf && later.keyOf[s] == st.keyOf[s])
    && (forall s | s in st.db.seekers :: s in later.db.seekers)
    && (forall id, s | Marked(st, uses, id, s) :: Marked(later, uses, id, s))
    && st.now <= later.now
  }

  lemma RowKept(st: State, later: State, uses: Uses, id: Id, row: Inquiry)
    requires RowOk(st, uses, id, row) && Kept(st, later, uses)
    ensures RowOk(later, uses, id, row)
  {
    hide RowSound, Marked;
  }

  lemma CallKept(st: State, later: State, uses: Uses, call: Call)
    requires CallOk(st, uses, call) && Kept(st, later, uses)
    ensures CallOk(later, uses, call)
  {
    hide RowSound, Marked, Refusal, IsApplicationSetComplete;
  }

  // a state with the same rows and calls, or sound ones in their places
  ghost predicate RowsSoundOrSame(st: State, later: State, uses: Uses) {
    forall id | id in later.db.inquiries ::
      (id in st.db.inquiries && later.db.inquiries[id] == st.db.inquiries[id])
        || RowOk(later, uses, id, later.db.inquiries[id])
  }

  ghost predicate CallsSoundOrSame(st: State, later: State, uses: Uses) {
    forall c | c in later.calls ::
      (c in st.calls && later.calls[c] == st.calls[c]) || CallOk(later, uses, later.calls[c])
  }

  lemma StillOk(st: State, later: State, uses: Uses)
    requires RowsOk(st, uses) && CallsOk(st, uses) && Kept(st, later, uses)
    requires RowsSoundOrSame(st, later, uses) && CallsSoundOrSame(st, later, uses)
    ensures RowsOk(later, uses) && CallsOk(later, uses)
  {
    hide Kept, RowOk, CallOk;
    forall id | id in later.db.inquiries ensures RowOk(later, uses, id, later.db.inquiries[id]) {
      if id in st.db.inquiries && later.db.inquiries[id] == st.db.inquiries[id] {
        RowKept(st, later, uses, id, st.db.inquiries[id]);
      }
    }
    forall c | c in later.calls ensures CallOk(later, uses, later.calls[c]) {
      if c in st.calls && later.calls[c] == st.calls[c] {
        CallKept(st, later, uses, st.calls[c]);
      }
    }
  }

  // writing one row, with the channel it had if it was there
  lemma KeptByRow(st: State, later: State, uses: Uses, id: Id, row: Inquiry)
    requires later.db == st.db.(inquiries := st.db.inquiries[id := row]) && later.keyOf == st.keyOf
             && later.now == st.now
    requires id in st.db.inquiries ==> row.channel == st.db.inquiries[id].channel
    ensures Kept(st, later, uses)
  {
  }

  lemma KeptByCalls(st: State, later: State, uses: Uses)
    requires later.db.inquiries == st.db.inquiries && later.db.seekers == st.db.seekers
    requires later.keyOf == st.keyOf && st.now <= later.now
    ensures Kept(st, later, uses)
  {
  }

  // a row is written and the calls stay, end or go on soundly
  lemma RowWritten(st: State, later: State, uses: Uses, id: Id, row: Inquiry)
    requires Inv(st, uses)
    requires later.db == st.db.(inquiries := st.db.inquiries[id := row]) && later.keyOf == st.keyOf
             && later.now == st.now
    requires id in st.db.inquiries ==> row.channel == st.db.inquiries[id].channel
    requires RowOk(later, uses, id, row) && CallsSoundOrSame(st, later, uses)
    ensures Inv(later, uses)
  {
    KeptByRow(st, later, uses, id, row);
    hide RowsOk, CallsOk, KeysMatch, AuditMatches, Kept, CallsSoundOrSame, RowOk;
    StillOk(st, later, uses);
  }

  // only calls, the clock and rows of other producers change
  lemma TablesUnwritten(st: State, later: State, uses: Uses)
    requires Inv(st, uses)
    requires later.db == st.db && later.keyOf == st.keyOf && st.now <= later.now && CallsSoundOrSame(st, later, uses)
    ensures Inv(later, uses)
  {
    KeptByCalls(st, later, uses);
    hide RowsOk, CallsOk, KeysMatch, AuditMatches, Kept, CallsSoundOrSame, RowOk;
    StillOk(st, later, uses);
  }

  // ---------------------------------------------------------------- each step

  lemma RecordKeeps(st: State, uses: Uses, id: Id, channel: Channel, answers: DmAnswers)
    requires Inv(st, uses) && id !in st.db.inquiries
    ensures Inv(WithRow(st, id, Record(channel, answers, st.now)), uses)
  {
    hide Inv, IsDmComplete;
    RowWritten(st, WithRow(st, id, Record(channel, answers, st.now)), uses, id, Record(channel, answers, st.now));
  }

  lemma ReadUpdateKeeps(st: State, uses: Uses, c: CallId, id: Id, changes: UpdateInput)
    requires Inv(st, uses)
    ensures Inv(AfterReadUpdate(st, c, id, changes), uses)
  {
    hide Refusal, RowSound;
    if id in st.db.inquiries && Refusal(st.db.inquiries[id], changes).None? {
      assert RowOk(st, uses, id, st.db.inquiries[id]);
      hide Inv;
      TablesUnwritten(st, AfterReadUpdate(st, c, id, changes), uses);
    }
  }

  // what an accepted update writes is sound if what it read was, and it is never promoted
  lemma UpdateSound(found: Inquiry, existing: Inquiry, changes: UpdateInput, at: int)
    requires RowSound(existing) && Refusal(existing, changes).None?
    ensures RowSound(Overwrite(found, Update(existing, changes, at).row))
    ensures Overwrite(found, Update(existing, changes, at).row).status != Promoted
  {
    hide IsDmComplete, MergeAnswers, MergeReceived, IsApplicationSetComplete;
  }

  lemma WriteUpdateKeeps(st: State, uses: Uses, c: CallId, at: int)
    requires Inv(st, uses) && Enabled(st, WriteUpdateStep(c, at), uses)
    ensures Inv(AfterWriteUpdate(st, c, at), uses)
  {
    var call := st.calls[c];
    assert CallOk(st, uses, call);
    hide Inv, RowSound, Refusal, Update;
    UpdateSound(st.db.inquiries[call.id], call.existing, call.changes, at);
    RowWritten(st, AfterWriteUpdate(st, c, at), uses, call.id,
               Overwrite(st.db.inquiries[call.id], Update(call.existing, call.changes, at).row));
  }

  lemma SelectStaleKeeps(st: State, uses: Uses, c: CallId, begun: int)
    requires Inv(st, uses)
    ensures Inv(WithCall(st, c, Closing(StaleIds(st.db.inquiries, begun), st.now)), uses)
  {
    hide Inv, ClosesInBulk;
    TablesUnwritten(st, WithCall(st, c, Closing(StaleIds(st.db.inquiries, begun), st.now)), uses);
  }

  lemma CloseOneKeeps(st: State, uses: Uses, c: CallId, id: Id, at: int)
    requires Inv(st, uses) && Enabled(st, CloseOneStep(c, id, at), uses)
    ensures Inv(AfterCloseOne(st, c, id, at), uses)
  {
    hide CallsOk, RowsOk, IsDmComplete;
    OneCallOk(st, uses, c);
    OneRowOk(st, uses, id);
    RowWritten(st, AfterCloseOne(st, c, id, at), uses, id, MarkClosed(st.db.inquiries[id], at));
  }

  lemma BeginKeeps(st: State, uses: Uses, c: CallId, input: PromoteInput)
    requires Inv(st, uses) && uses(input.key) == ForInquiry(input.inquiryId)
    ensures Inv(AfterBegin(st, c, input), uses)
  {
    if Begin(st.db.inquiries, input).Proceed? {
      assert RowOk(st, uses, input.inquiryId, st.db.inquiries[input.inquiryId]);
      hide Inv, RowSound, IsApplicationSetComplete;
      TablesUnwritten(st, AfterBegin(st, c, input), uses);
    }
  }

  lemma WriteInquiryKeeps(st: State, uses: Uses, c: CallId)
    requires Inv(st, uses) && Enabled(st, WriteInquiryStep(c), uses)
    ensures Inv(AfterWriteInquiry(st, c), uses)
  {
    var call := st.calls[c];
    var id := call.input.inquiryId;
    hide CallsOk, RowsOk, KeysMatch, AuditMatches, IsDmComplete, IsApplicationSetComplete;
    OneCallOk(st, uses, c);
    OneRowOk(st, uses, id);
    RowWritten(st, AfterWriteInquiry(st, c), uses, id,
               PromotedRow(st.db.inquiries[id], call.stage.seeker, call.acceptedAt, st.now));
  }

  lemma CrashKeeps(st: State, uses: Uses, c: CallId)
    requires Inv(st, uses)
    ensures Inv(Ended(st, c), uses)
  {
    hide Inv;
    TablesUnwritten(st, Ended(st, c), uses);
  }

  lemma AuditGrows(audit: seq<Confirmed>, seekers: map<SeekerId, Seeker>, event: Confirmed, seeker: Seeker)
    requires AuditMatches(audit, seekers) && event.aggregateId !in seekers
    ensures AuditMatches(audit + [event], seekers[event.aggregateId := seeker])
  {
    var later := seekers[event.aggregateId := seeker];
    forall s | s in later
      ensures exists i :: 0 <= i < |audit + [event]| && (audit + [event])[i].aggregateId == s
    {
      if s == event.aggregateId {
        assert (audit + [event])[|audit|].aggregateId == s;
      } else {
        var i :| 0 <= i < |audit| && audit[i].aggregateId == s;
        assert (audit + [event])[i].aggregateId == s;
      }
    }
  }

  // every seeker that was there before, and its key, are the same in the later state
  predicate AllKept(st: State, later: State) {
    && (forall s | s in st.keyOf :: s in later.keyOf && later.keyOf[s] == st.keyOf[s])
    && (forall s | s in st.db.seekers :: s in later.db.seekers && later.db.seekers[s] == st.db.seekers[s])
  }

  lemma KeysGrow(db: Db, keyOf: map<SeekerId, Key>, uses: Uses, key: Key, newId: SeekerId, seeker: Seeker,
                 audit: seq<Confirmed>)
    requires KeysMatch(db, keyOf, uses) && uses(key) != ForOther && newId !in db.seekers
    ensures KeysMatch(Db(db.inquiries, db.seekers[newId := seeker],
                         InsertIfAbsent(db.outbox, key, OutboxRow(true, Some(newId))), audit),
                      keyOf[newId := key], uses)
  {
  }

  // a confirm under a key of either kind: seekers, keys and events go on matching
  lemma ConfirmMatches(st: State, uses: Uses, key: Key, details: nat, acceptedAt: Day, newId: SeekerId)
    requires KeysMatch(st.db, st.keyOf, uses) && AuditMatches(st.db.audit, st.db.seekers) && uses(key) != ForOther
             && newId !in st.db.seekers
    ensures var later := AfterConfirm(st, key, details, acceptedAt, newId);
            && KeysMatch(later.db, later.keyOf, uses) && AuditMatches(later.db.audit, later.db.seekers)
            && AllKept(st, later) && later.db.inquiries == st.db.inquiries
            && newId in later.keyOf && later.keyOf[newId] == key && newId in later.db.seekers
  {
    hide AuditMatches, KeysMatch;
    KeysAreSeekers(st.db, st.keyOf, uses);
    var event, seeker := Confirmed(newId, details, acceptedAt), Seeker(details, acceptedAt, None, None, st.now);
    AuditGrows(st.db.audit, st.db.seekers, event, seeker);
    KeysGrow(st.db, st.keyOf, uses, key, newId, seeker, st.db.audit + [event]);
  }

  lemma KnownKey(db: Db, keyOf: map<SeekerId, Key>, uses: Uses, key: Key)
    requires KeysMatch(db, keyOf, uses) && key in db.outbox && uses(key) != ForOther
    ensures db.outbox[key].seekerConfirmed && db.outbox[key].externalReference.Some?
    ensures db.outbox[key].externalReference.value in keyOf && keyOf[db.outbox[key].externalReference.value] == key
  {
  }

  lemma KeysAreSeekers(db: Db, keyOf: map<SeekerId, Key>, uses: Uses)
    requires KeysMatch(db, keyOf, uses)
    ensures keyOf.Keys == db.seekers.Keys
  {
  }

  lemma KeptByConfirm(st: State, later: State, uses: Uses)
    requires AllKept(st, later) && later.db.inquiries == st.db.inquiries && later.now == st.now
    ensures Kept(st, later, uses)
  {
  }

  lemma LookKeeps(st: State, uses: Uses, c: CallId)
    requires Inv(st, uses) && Enabled(st, LookStep(c), uses)
    ensures Inv(AfterLook(st, c), uses)
  {
    var call := st.calls[c];
    hide RowsOk, AuditMatches, CallsOk, IsApplicationSetComplete;
    OneCallOk(st, uses, c);
    if call.input.key in st.db.outbox {
      KnownKey(st.db, st.keyOf, uses, call.input.key);
    }
    KeysAreSeekers(st.db, st.keyOf, uses);
    hide KeysMatch;
    TablesUnwritten(st, AfterLook(st, c), uses);
  }

  lemma LookAloneKeeps(st: State, uses: Uses, c: CallId, key: Key, details: nat, acceptedAt: Day)
    requires Inv(st, uses) && uses(key) == ForConfirm
    ensures Inv(AfterLookAlone(st, c, key, details, acceptedAt), uses)
  {
    hide Inv;
    TablesUnwritten(st, AfterLookAlone(st, c, key, details, acceptedAt), uses);
  }

  lemma ConfirmAloneKeeps(st: State, uses: Uses, c: CallId, newId: SeekerId)
    requires Inv(st, uses) && Enabled(st, ConfirmAloneStep(c, newId), uses)
    ensures Inv(AfterConfirmAlone(st, c, newId), uses)
  {
    var call := st.calls[c];
    assert CallOk(st, uses, call);
    hide RowsOk, CallsOk, KeysMatch, AuditMatches, AllKept, WriteConfirm, Kept;
    var later := AfterConfirmAlone(st, c, newId);
    ConfirmMatches(st, uses, call.key, call.details, call.acceptedAt, newId);
    assert AllKept(st, later) by {
      AllKeptSame(st, AfterConfirm(st, call.key, call.details, call.acceptedAt, newId), later);
    }
    KeptByConfirm(st, later, uses);
    StillOk(st, later, uses);
  }

  lemma ConfirmKeeps(st: State, uses: Uses, c: CallId, newId: SeekerId)
    requires Inv(st, uses) && Enabled(st, ConfirmStep(c, newId), uses)
    ensures Inv(AfterConfirmStep(st, c, newId), uses)
  {
    var call := st.calls[c];
    assert CallOk(st, uses, call);
    hide RowsOk, CallsOk, KeysMatch, AuditMatches, AllKept, WriteConfirm, Kept, IsApplicationSetComplete;
    var later := AfterConfirmStep(st, c, newId);
    ConfirmMatches(st, uses, call.input.key, call.input.details, call.acceptedAt, newId);
    assert AllKept(st, later) by {
      AllKeptSame(st, AfterConfirm(st, call.input.key, call.input.details, call.acceptedAt, newId), later);
    }
    KeptByConfirm(st, later, uses);
    StillOk(st, later, uses);
  }

  lemma AllKeptSame(st: State, middle: State, later: State)
    requires AllKept(st, middle) && later.db == middle.db && later.keyOf == middle.keyOf
    ensures AllKept(st, later)
  {
  }

  // the seeker written is a seeker of this inquiry only, and its mark is the same whoever writes it
  lemma KeptByWriteSeeker(st: State, uses: Uses, c: CallId)
    requires Enabled(st, WriteSeekerStep(c), uses) && PromotionOk(st, uses, st.calls[c])
    ensures Kept(st, AfterWriteSeeker(st, c), uses)
    ensures Marked(AfterWriteSeeker(st, c), uses, st.calls[c].input.inquiryId, st.calls[c].stage.seeker)
  {
    hide IsApplicationSetComplete;
  }

  lemma SameSeekerIds(db: Db, later: Db, keyOf: map<SeekerId, Key>, uses: Uses)
    requires KeysMatch(db, keyOf, uses) && AuditMatches(db.audit, db.seekers)
    requires later.seekers.Keys == db.seekers.Keys && later.outbox == db.outbox && later.audit == db.audit
    ensures KeysMatch(later, keyOf, uses) && AuditMatches(later.audit, later.seekers)
  {
  }

  lemma OneCallOk(st: State, uses: Uses, c: CallId)
    requires CallsOk(st, uses) && c in st.calls
    ensures CallOk(st, uses, st.calls[c])
  {
    hide CallOk;
  }

  lemma OneRowOk(st: State, uses: Uses, id: Id)
    requires RowsOk(st, uses) && id in st.db.inquiries
    ensures RowOk(st, uses, id, st.db.inquiries[id])
  {
    hide RowOk;
  }

  // what the statement leaves alone
  lemma WriteSeekerTables(st: State, uses: Uses, c: CallId)
    requires Enabled(st, WriteSeekerStep(c), uses) && PromotionOk(st, uses, st.calls[c])
    ensures AfterWriteSeeker(st, c).db == st.db.(seekers := AfterWriteSeeker(st, c).db.seekers)
    ensures AfterWriteSeeker(st, c).db.seekers.Keys == st.db.seekers.Keys && AfterWriteSeeker(st, c).keyOf == st.keyOf
    ensures CallsSoundOrSame(st, AfterWriteSeeker(st, c), uses)
  {
    KeptByWriteSeeker(st, uses, c);
    hide IsApplicationSetComplete, Kept, Marked;
  }

  lemma WriteSeekerKeeps(st: State, uses: Uses, c: CallId)
    requires Inv(st, uses) && Enabled(st, WriteSeekerStep(c), uses)
    ensures Inv(AfterWriteSeeker(st, c), uses)
  {
    hide RowsOk, CallsOk, KeysMatch, AuditMatches, Kept, PromotionOk, CallsSoundOrSame, AfterWriteSeeker;
    var later := AfterWriteSeeker(st, c);
    OneCallOk(st, uses, c);
    KeptByWriteSeeker(st, uses, c);
    WriteSeekerTables(st, uses, c);
    SameSeekerIds(st.db, later.db, st.keyOf, uses);
    StillOk(st, later, uses);
  }

  lemma OtherKeyTaken(db: Db, keyOf: map<SeekerId, Key>, uses: Uses, key: Key, reference: Option<nat>)
    requires KeysMatch(db, keyOf, uses) && uses(key) == ForOther
    ensures KeysMatch(db.(outbox := InsertIfAbsent(db.outbox, key, OutboxRow(false, reference))), keyOf, uses)
  {
  }

  lemma EnqueueKeeps(st: State, uses: Uses, key: Key, reference: Option<nat>)
    requires Inv(st, uses) && uses(key) == ForOther
    ensures Inv(Apply(st, EnqueueStep(key, reference), uses), uses)
  {
    var later := Apply(st, EnqueueStep(key, reference), uses);
    KeptByCalls(st, later, uses);
    hide RowsOk, CallsOk, KeysMatch, AuditMatches, Kept;
    OtherKeyTaken(st.db, st.keyOf, uses, key, reference);
    StillOk(st, later, uses);
  }

  lemma TickKeeps(st: State, uses: Uses, later: int)
    requires Inv(st, uses) && st.now <= later
    ensures Inv(st.(now := later), uses)
  {
    hide Inv;
    TablesUnwritten(st, st.(now := later), uses);
  }

  lemma StepKeepsInv(st: State, uses: Uses, step: Step)
    requires Inv(st, uses) && Enabled(st, step, uses)
    ensures Inv(Apply(st, step, uses), uses)
  {
    hide Inv;
    match step
    case RecordStep(id, channel, answers) => RecordKeeps(st, uses, id, channel, answers);
    case ReadUpdateStep(c, id, changes) => ReadUpdateKeeps(st, uses, c, id, changes);
    case WriteUpdateStep(c, at) => WriteUpdateKeeps(st, uses, c, at);
    case SelectStaleStep(c, begun) => SelectStaleKeeps(st, uses, c, begun);
    case CloseOneStep(c, id, at) => CloseOneKeeps(st, uses, c, id, at);
    case BeginStep(c, input) => BeginKeeps(st, uses, c, input);
    case LookStep(c) => LookKeeps(st, uses, c);
    case ConfirmStep(c, newId) => ConfirmKeeps(st, uses, c, newId);
    case WriteSeekerStep(c) => WriteSeekerKeeps(st, uses, c);
    case WriteInquiryStep(c) => WriteInquiryKeeps(st, uses, c);
    case CrashStep(c) => CrashKeeps(st, uses, c);
    case LookAloneStep(c, key, details, acceptedAt) => LookAloneKeeps(st, uses, c, key, details, acceptedAt);
    case ConfirmAloneStep(c, newId) => ConfirmAloneKeeps(st, uses, c, newId);
    case EnqueueStep(key, reference) => EnqueueKeeps(st, uses, key, reference);
    case TickStep(later) => TickKeeps(st, uses, later);
  }

  lemma {:induction false} RunKeepsInv(states: seq<State>, steps: seq<Step>, uses: Uses, i: nat)
    requires IsRun(states, steps, uses) && i < |states|
    ensures Inv(states[i], uses)
  {
    hide Apply, Enabled;
    if i > 0 {
      hide Inv;
      RunKeepsInv(states, steps, uses, i - 1);
      StepKeepsInv(states[i - 1], uses, steps[i - 1]);
    }
  }

  // ---------------------------------------------------------------- one call with nothing in between

  /** An update that is written right after it was read is the method, refusals included. */
  lemma UpdateInOneGo(st: State, uses: Uses, c: CallId, id: Id, changes: UpdateInput)
    requires c !in st.calls && id in st.db.inquiries
    ensures Enabled(st, ReadUpdateStep(c, id, changes), uses)
    ensures var read := Apply(st, ReadUpdateStep(c, id, changes), uses);
            var updated := Update(st.db.inquiries[id], changes, st.now);
            && read.db == st.db
            && (Enabled(read, WriteUpdateStep(c, st.now), uses) <==> updated.error.None?)
            && (updated.error.None? ==>
                  Apply(read, WriteUpdateStep(c, st.now), uses)
                  == st.(db := st.db.(inquiries := st.db.inquiries[id := updated.row])))
  {
    OverwriteUnchanged(st.db.inquiries[id], changes, st.now);
    var call := Updating(id, st.db.inquiries[id], changes, st.now);
    assert st.calls[c := call] - {c} == st.calls;
    hide Overwrite, MergeAnswers, MergeReceived, IsDmComplete, Inquiries.Next, ClosesLazily;
  }

  /** A confirm whose key check is followed by its commit is the method. */
  lemma ConfirmInOneGo(st: State, uses: Uses, c: CallId, key: Key, details: nat, acceptedAt: Day, newId: SeekerId)
    requires c !in st.calls && uses(key) == ForConfirm && newId !in st.db.seekers
    ensures Enabled(st, LookAloneStep(c, key, details, acceptedAt), uses)
    ensures var looked := Apply(st, LookAloneStep(c, key, details, acceptedAt), uses);
            var confirmed := Confirm(st.db, key, details, acceptedAt, newId, st.now);
            && looked.db == st.db
            && (Enabled(looked, ConfirmAloneStep(c, newId), uses) <==> !confirmed.alreadyProcessed)
            && (confirmed.alreadyProcessed ==> confirmed.db == st.db)
            && (!confirmed.alreadyProcessed ==> Apply(looked, ConfirmAloneStep(c, newId), uses).db == confirmed.db)
  {
    hide WriteConfirm;
  }

  // the steps one after the other, each possible where it is taken
  ghost predicate Leads(st: State, steps: seq<Step>, uses: Uses, later: State)
    decreases |steps|
  {
    if steps == [] then later == st
    else Enabled(st, steps[0], uses) && Leads(Apply(st, steps[0], uses), steps[1..], uses, later)
  }

  lemma LeadsFirst(st: State, step: Step, steps: seq<Step>, uses: Uses, later: State)
    requires Enabled(st, step, uses) && Leads(Apply(st, step, uses), steps, uses, later)
    ensures Leads(st, [step] + steps, uses, later)
  {
    assert ([step] + steps)[1..] == steps;
  }

  // the last two commits
  lemma WritesInOneGo(st: State, uses: Uses, c: CallId) returns (later: State)
    requires c in st.calls && st.calls[c].Promoting? && st.calls[c].stage.HasConfirmed?
    requires st.calls[c].input.inquiryId in st.db.inquiries
    ensures Leads(st, [WriteSeekerStep(c), WriteInquiryStep(c)], uses, later)
    ensures var call := st.calls[c];
            later == st.(
              db := st.db.(seekers := WriteSeeker(st.db.seekers, call.stage.seeker, call.input.inquiryId,
                                                  call.existing.channel, call.acceptedAt, st.now),
                           inquiries := WriteInquiry(st.db.inquiries, call.input.inquiryId, call.stage.seeker,
                                                     call.acceptedAt, st.now)),
              calls := st.calls - {c})
  {
    hide WriteSeeker;
    var written := Apply(st, WriteSeekerStep(c), uses);
    later := Apply(written, WriteInquiryStep(c), uses);
    assert written.calls - {c} == st.calls - {c};
    assert Leads(later, [], uses, later);
    hide Apply, Enabled, Leads, WriteInquiry;
    LeadsFirst(written, WriteInquiryStep(c), [], uses, later);
    LeadsFirst(st, WriteSeekerStep(c), [WriteInquiryStep(c)], uses, later);
  }

  // the steps of a promotion, of which the confirm has one less if the key is known
  function PromotionSteps(db: Db, c: CallId, input: PromoteInput, newId: SeekerId): seq<Step> {
    [BeginStep(c, input), LookStep(c)]
    + (if KnownSeeker(db.outbox, input.key).None? then [ConfirmStep(c, newId)] else [])
    + [WriteSeekerStep(c), WriteInquiryStep(c)]
  }

  // a begun promotion whose key check comes next
  lemma BegunInOneGo(st: State, uses: Uses, c: CallId, newId: SeekerId) returns (later: State)
    requires c in st.calls && st.calls[c].Promoting? && st.calls[c].stage == HasRead && newId !in st.db.seekers
    requires st.calls[c].input.inquiryId in st.db.inquiries
    ensures Leads(st, PromotionSteps(st.db, c, st.calls[c].input, newId)[1..], uses, later)
    ensures var call := st.calls[c];
            var confirmed := Confirm(st.db, call.input.key, call.input.details, call.acceptedAt, newId, st.now);
            && later.db == confirmed.db.(
                 seekers := WriteSeeker(confirmed.db.seekers, confirmed.jobSeekerId, call.input.inquiryId,
                                        call.existing.channel, call.acceptedAt, st.now),
                 inquiries := WriteInquiry(st.db.inquiries, call.input.inquiryId, confirmed.jobSeekerId,
                                           call.acceptedAt, st.now))
            && later.calls == st.calls - {c}
  {
    hide WriteSeeker, WriteInquiry;
    var writes := [WriteSeekerStep(c), WriteInquiryStep(c)];
    var looked := Apply(st, LookStep(c), uses);
    assert looked.calls - {c} == st.calls - {c};
    if KnownSeeker(st.db.outbox, st.calls[c].input.key).None? {
      var confirmed := Apply(looked, ConfirmStep(c, newId), uses);
      assert confirmed.calls - {c} == st.calls - {c};
      later := WritesInOneGo(confirmed, uses, c);
      hide Leads, Apply, Enabled, WriteConfirm;
      LeadsFirst(looked, ConfirmStep(c, newId), writes, uses, later);
      LeadsFirst(st, LookStep(c), [ConfirmStep(c, newId)] + writes, uses, later);
      assert PromotionSteps(st.db, c, st.calls[c].input, newId)[1..]
          == [LookStep(c)] + ([ConfirmStep(c, newId)] + writes);
    } else {
      later := WritesInOneGo(looked, uses, c);
      hide Leads, Apply, Enabled;
      LeadsFirst(st, LookStep(c), writes, uses, later);
      assert PromotionSteps(st.db, c, st.calls[c].input, newId)[1..] == [LookStep(c)] + writes;
    }
  }

  /** A promotion whose statements come one after the other is the method: it goes on from its read exactly if the
      method does, and can then take each of its steps. */
  lemma PromoteInOneGo(st: State, uses: Uses, c: CallId, input: PromoteInput, newId: SeekerId) returns (later: State)
    requires c !in st.calls && uses(input.key) == ForInquiry(input.inquiryId) && newId !in st.db.seekers
    ensures Enabled(st, BeginStep(c, input), uses)
    ensures !Begin(st.db.inquiries, input).Proceed? ==> later == st == Apply(st, BeginStep(c, input), uses)
    ensures Begin(st.db.inquiries, input).Proceed? ==> Leads(st, PromotionSteps(st.db, c, input, newId), uses, later)
    ensures later.db == Promote(st.db, input, newId, st.now, 3) && later.calls == st.calls
  {
    hide WriteSeeker, WriteInquiry, IsApplicationSetComplete, Leads;
    var begun := Apply(st, BeginStep(c, input), uses);
    if Begin(st.db.inquiries, input).Proceed? {
      later := BegunInOneGo(begun, uses, c, newId);
      var steps := PromotionSteps(st.db, c, input, newId);
      LeadsFirst(st, BeginStep(c, input), steps[1..], uses, later);
      assert steps == [BeginStep(c, input)] + steps[1..];
      assert begun.calls - {c} == st.calls;
    } else {
      later := st;
    }
  }

  // what a bulk close makes of the rows that it has still to write
  function ClosedRows(inquiries: map<Id, Inquiry>, ids: set<Id>, now: int): map<Id, Inquiry> {
    map id | id in inquiries :: if id in ids then MarkClosed(inquiries[id], now) else inquiries[id]
  }

  lemma {:induction false} ClosesInOneGo(st: State, uses: Uses, c: CallId) returns (steps: seq<Step>, later: State)
    requires c in st.calls && st.calls[c].Closing? && st.calls[c].selectedAt <= st.now
    requires st.calls[c].ids <= st.db.inquiries.Keys
    ensures Leads(st, steps, uses, later) && |steps| == |st.calls[c].ids|
    ensures later.db == st.db.(inquiries := ClosedRows(st.db.inquiries, st.calls[c].ids, st.now))
    decreases st.calls[c].ids
  {
    hide MarkClosed;
    var ids := st.calls[c].ids;
    if ids == {} {
      steps, later := [], st;
      assert ClosedRows(st.db.inquiries, {}, st.now) == st.db.inquiries;
    } else {
      var id :| id in ids;
      var step := CloseOneStep(c, id, st.now);
      var next := Apply(st, step, uses);
      assert next.calls[c].ids == ids - {id};
      steps, later := ClosesInOneGo(next, uses, c);
      assert ClosedRows(next.db.inquiries, ids - {id}, st.now) == ClosedRows(st.db.inquiries, ids, st.now);
      LeadsFirst(st, step, steps, uses, later);
      steps := [step] + steps;
    }
  }

  /** A bulk close whose writes follow its select is the method. */
  lemma CloseInOneGo(st: State, uses: Uses, c: CallId) returns (steps: seq<Step>, later: State)
    requires c !in st.calls
    ensures Leads(st, [SelectStaleStep(c, st.now)] + steps, uses, later)
    ensures later.db == st.db.(inquiries := CloseStale(st.db.inquiries, st.now))
  {
    hide Leads, MarkClosed, ClosesInBulk;
    var selected := Apply(st, SelectStaleStep(c, st.now), uses);
    steps, later := ClosesInOneGo(selected, uses, c);
    LeadsFirst(st, SelectStaleStep(c, st.now), steps, uses, later);
    assert ClosedRows(st.db.inquiries, StaleIds(st.db.inquiries, st.now), st.now)
        == CloseStale(st.db.inquiries, st.now);
  }
}
