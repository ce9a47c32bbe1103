/** src/services/inquiries/inquiry-lifecycle.ts and confirm-job-seeker.ts: from an inquiry to a job seeker.

    Ids, idempotency keys and dates are compared for equality only, so numbers stand for them;
    instants are milliseconds. */
module Inquiries {
  import opened Tables

  type Id = nat
  type SeekerId = nat
  type Key = nat
  type Day = nat

  datatype Channel = SugukuruJob | WinJob | SnsApplication | OtherAgency | DirectReferral | InternalConversion
  datatype Status = Open | SetSent | Promoted | Closed

  datatype DmAnswers = DmAnswers(
    visaStatus: Option<string>, visaExpiry: Option<string>, residence: Option<string>,
    workHistory: Option<string>, japaneseLevel: Option<string>, careerGoal: Option<string>)

  datatype Checklist = Checklist(
    hasApplicationForm: bool, hasResume: bool, hasResidenceCard: bool, hasQualificationDocs: bool,
    wantsT2p: bool, hasT2pPriorConsent: bool)

  datatype Inquiry = Inquiry(
    channel: Channel, status: Status, dmAnswers: DmAnswers, dmComplete: bool, received: Checklist,
    setSentAt: Option<int>, setReceivedAt: Option<Day>, lastContactAt: int, closedAt: Option<int>,
    promotedJobSeekerId: Option<SeekerId>, updatedAt: int)

  // `details` stands for the columns a confirm copies from its input
  datatype Seeker = Seeker(details: nat, acceptedAt: Day, applicationChannel: Option<Channel>, inquiryId: Option<Id>,
                           updatedAt: int)

  // the job_seeker.confirmed event, whose hash covers the id, the input fields and the acceptance date
  datatype Confirmed = Confirmed(aggregateId: SeekerId, details: nat, acceptedAt: Day)

  datatype OutboxRow = OutboxRow(seekerConfirmed: bool, externalReference: Option<nat>)

  datatype Db = Db(inquiries: map<Id, Inquiry>, seekers: map<SeekerId, Seeker>, outbox: map<Key, OutboxRow>,
                   audit: seq<Confirmed>)

  datatype Error = NotFound | AlreadyFinal | AnswersIncomplete | IsClosed | SetIncomplete

  const AUTO_CLOSE_MS := 7 * 24 * 60 * 60 * 1000

  // ---------------------------------------------------------------- completeness

  // WhiteSpace and LineTerminator of ECMAScript, which trim removes
  predicate IsWhite(c: char) {
    c in "\t\n\r \U{B}\U{C}\U{A0}\U{1680}\U{2028}\U{2029}\U{202F}\U{205F}\U{3000}\U{FEFF}"
      || '\U{2000}' <= c <= '\U{200A}'
  }

  function TrimStart(s: string): string {
    if s != [] && IsWhite(s[0]) then TrimStart(s[1..]) else s
  }

  function TrimEnd(s: string): string {
    if s != [] && IsWhite(s[|s| - 1]) then TrimEnd(s[..|s| - 1]) else s
  }

  function Trim(s: string): string {
    TrimEnd(TrimStart(s))
  }

  predicate Answered(answer: Option<string>) {
    answer.Some? && Trim(answer.value) != ""
  }

  predicate IsDmComplete(answers: DmAnswers) {
    && Answered(answers.visaStatus)
    && Answered(answers.visaExpiry)
    && Answered(answers.residence)
    && Answered(answers.workHistory)
    && Answered(answers.japaneseLevel)
    && Answered(answers.careerGoal)
  }

  predicate IsApplicationSetComplete(received: Checklist) {
    var base := received.hasApplicationForm && received.hasResume && received.hasResidenceCard
                && received.hasQualificationDocs;
    if !received.wantsT2p then base else base && received.hasT2pPriorConsent
  }

  // one of the papers of a set is missing; who wants T2P also needs the prior consent
  predicate LacksPaper(received: Checklist) {
    || !received.hasApplicationForm || !received.hasResume || !received.hasResidenceCard
    || !received.hasQualificationDocs || (received.wantsT2p && !received.hasT2pPriorConsent)
  }

  /** Which papers make a set complete. */
  lemma CompleteIff(received: Checklist)
    ensures IsApplicationSetComplete(received) <==> !LacksPaper(received)
  {
  }

  lemma {:induction false} TrimStartIsBlank(s: string)
    ensures TrimStart(s) == "" <==> forall c | c in s :: IsWhite(c)
    ensures TrimStart(s) != "" ==> !IsWhite(TrimStart(s)[0])
    ensures forall c | c in TrimStart(s) :: c in s
  {
    if s != [] && IsWhite(s[0]) {
      TrimStartIsBlank(s[1..]);
      assert s == [s[0]] + s[1..];
    } else if s != [] {
      assert s[0] in s;
    }
  }

  lemma {:induction false} TrimEndKeepsFirst(s: string)
    requires s != "" && !IsWhite(s[0])
    ensures TrimEnd(s) != ""
  {
    if IsWhite(s[|s| - 1]) {
      TrimEndKeepsFirst(s[..|s| - 1]);
    }
  }

  // WhiteSpace and LineTerminator of ECMA-262 by code point
  lemma WhiteAre(c: char)
    ensures IsWhite(c) <==> (c as int in {0x9, 0xa, 0xb, 0xc, 0xd, 0x20, 0xa0, 0x1680, 0x2028, 0x2029, 0x202f, 0x205f,
                                          0x3000, 0xfeff} || 0x2000 <= c as int <= 0x200a)
  {
  }

  /** An answer counts exactly when it holds a character that is not white space. */
  lemma AnsweredIff(answer: Option<string>)
    ensures Answered(answer) <==> answer.Some? && exists c :: c in answer.value && !IsWhite(c)
  {
    if answer.Some? {
      TrimStartIsBlank(answer.value);
      if TrimStart(answer.value) != "" {
        TrimEndKeepsFirst(TrimStart(answer.value));
      }
    }
  }

  // ---------------------------------------------------------------- record and update

  function Record(channel: Channel, answers: DmAnswers, now: int): Inquiry {
    Inquiry(channel, Open, answers, IsDmComplete(answers), Checklist(false, false, false, false, false, false),
            None, None, now, None, None, now)
  }

  // a new inquiry, column by column: no paper has come and nothing was sent
  ghost predicate IsNewInquiry(row: Inquiry, channel: Channel, answers: DmAnswers, now: int) {
    && row.channel == channel && row.status == Open && row.dmAnswers == answers
    && (row.dmComplete <==> AllAnswered(answers))
    && row.received == Checklist(false, false, false, false, false, false)
    && row.setSentAt == None && row.setReceivedAt == None && row.lastContactAt == now && row.closedAt == None
    && row.promotedJobSeekerId == None && row.updatedAt == now
  }

  datatype UpdateInput = UpdateInput(
    dmAnswers: DmAnswers, setSent: bool, hasApplicationForm: Option<bool>, hasResume: Option<bool>,
    hasResidenceCard: Option<bool>, hasQualificationDocs: Option<bool>, wantsT2p: Option<bool>,
    hasT2pPriorConsent: Option<bool>, setReceivedAt: Option<Day>, autoCloseStale: bool)

  // `a ?? b`, and a key of `{...b, ...a}`
  function OrElse<T>(a: Option<T>, b: T): T {
    if a.Some? then a.value else b
  }

  function OrKeep<T>(a: Option<T>, b: Option<T>): Option<T> {
    if a.Some? then a else b
  }

  function MergeAnswers(before: DmAnswers, changes: DmAnswers): DmAnswers {
    DmAnswers(OrKeep(changes.visaStatus, before.visaStatus), OrKeep(changes.visaExpiry, before.visaExpiry),
              OrKeep(changes.residence, before.residence), OrKeep(changes.workHistory, before.workHistory),
              OrKeep(changes.japaneseLevel, before.japaneseLevel), OrKeep(changes.careerGoal, before.careerGoal))
  }

  function MergeReceived(before: Checklist, input: UpdateInput): Checklist {
    Checklist(OrElse(input.hasApplicationForm, before.hasApplicationForm), OrElse(input.hasResume, before.hasResume),
              OrElse(input.hasResidenceCard, before.hasResidenceCard),
              OrElse(input.hasQualificationDocs, before.hasQualificationDocs),
              OrElse(input.wantsT2p, before.wantsT2p), OrElse(input.hasT2pPriorConsent, before.hasT2pPriorConsent))
  }

  // the row an accepted update writes, before the automatic close
  function Next(existing: Inquiry, input: UpdateInput, now: int): Inquiry {
    var dmAnswers := MergeAnswers(existing.dmAnswers, input.dmAnswers);
    existing.(
      dmAnswers := dmAnswers,
      dmComplete := IsDmComplete(dmAnswers),
      received := MergeReceived(existing.received, input),
      setSentAt := if input.setSent then Some(OrElse(existing.setSentAt, now)) else existing.setSentAt,
      setReceivedAt := OrKeep(input.setReceivedAt, existing.setReceivedAt),
      lastContactAt := now,
      status := if input.setSent && existing.status == Open then SetSent else existing.status,
      updatedAt := now)
  }

  predicate ClosesLazily(next: Inquiry, autoCloseStale: bool, now: int) {
    && autoCloseStale && next.status == SetSent && next.setSentAt.Some?
    && !IsApplicationSetComplete(next.received) && now >= next.setSentAt.value + AUTO_CLOSE_MS
  }

  datatype Updated = Updated(row: Inquiry, error: Option<Error>, autoClosed: bool)

  // the checks that refuse an update; the clock plays no part in them
  function Refusal(existing: Inquiry, input: UpdateInput): Option<Error> {
    if existing.status == Promoted || existing.status == Closed then Some(AlreadyFinal)
    else if input.setSent && existing.status == Open
      && !IsDmComplete(MergeAnswers(existing.dmAnswers, input.dmAnswers)) then
      Some(AnswersIncomplete)
    else None
  }

  function Update(existing: Inquiry, input: UpdateInput, now: int): Updated {
    if Refusal(existing, input).Some? then Updated(existing, Refusal(existing, input), false)
    else
      var next := Next(existing, input, now);
      if ClosesLazily(next, input.autoCloseStale, now) then
        Updated(next.(status := Closed, closedAt := Some(now)), None, true)
      else Updated(next, None, false)
  }

  // an answer as the update leaves it: the one given with it, if any
  function Latest<T>(given: Option<T>, before: Option<T>): Option<T> {
    if given.Some? then given else before
  }

  // all six answers are given and not blank
  ghost predicate AllAnswered(answers: DmAnswers) {
    && Answered(answers.visaStatus) && Answered(answers.visaExpiry) && Answered(answers.residence)
    && Answered(answers.workHistory) && Answered(answers.japaneseLevel) && Answered(answers.careerGoal)
  }

  ghost predicate AnswersMerged(before: DmAnswers, given: DmAnswers, after: DmAnswers) {
    && after.visaStatus == Latest(given.visaStatus, before.visaStatus)
    && after.visaExpiry == Latest(given.visaExpiry, before.visaExpiry)
    && after.residence == Latest(given.residence, before.residence)
    && after.workHistory == Latest(given.workHistory, before.workHistory)
    && after.japaneseLevel == Latest(given.japaneseLevel, before.japaneseLevel)
    && after.careerGoal == Latest(given.careerGoal, before.careerGoal)
  }

  ghost predicate ReceivedMerged(before: Checklist, input: UpdateInput, after: Checklist) {
    && Some(after.hasApplicationForm) == Latest(input.hasApplicationForm, Some(before.hasApplicationForm))
    && Some(after.hasResume) == Latest(input.hasResume, Some(before.hasResume))
    && Some(after.hasResidenceCard) == Latest(input.hasResidenceCard, Some(before.hasResidenceCard))
    && Some(after.hasQualificationDocs) == Latest(input.hasQualificationDocs, Some(before.hasQualificationDocs))
    && Some(after.wantsT2p) == Latest(input.wantsT2p, Some(before.wantsT2p))
    && Some(after.hasT2pPriorConsent) == Latest(input.hasT2pPriorConsent, Some(before.hasT2pPriorConsent))
  }

  // Every column of the row that an accepted update leaves. It closes a sent set that lacks a paper from seven days
  // after the sending on, unless it is told not to.
  ghost predicate RightlyUpdated(existing: Inquiry, input: UpdateInput, now: int, row: Inquiry, autoClosed: bool) {
    && AnswersMerged(existing.dmAnswers, input.dmAnswers, row.dmAnswers)
    && (row.dmComplete <==> AllAnswered(row.dmAnswers))
    && ReceivedMerged(existing.received, input, row.received)
    && row.setSentAt == (if input.setSent && existing.setSentAt == None then Some(now) else existing.setSentAt)
    && row.setReceivedAt == Latest(input.setReceivedAt, existing.setReceivedAt)
    && row.channel == existing.channel && row.promotedJobSeekerId == existing.promotedJobSeekerId
    && row.lastContactAt == now && row.updatedAt == now
    && (autoClosed <==>
          && input.autoCloseStale && (input.setSent || existing.status == SetSent) && LacksPaper(row.received)
          && row.setSentAt != None && row.setSentAt.value + 604_800_000 <= now)
    && row.status == (if autoClosed then Closed else if input.setSent then SetSent else existing.status)
    && row.closedAt == (if autoClosed then Some(now) else existing.closedAt)
  }

  // what an update must answer and leave in place of the row
  ghost predicate RightlyAnswered(existing: Inquiry, input: UpdateInput, now: int, updated: Updated) {
    if existing.status == Promoted || existing.status == Closed then
      updated == Updated(existing, Some(AlreadyFinal), false)
    else if input.setSent && existing.status == Open
      && !exists merged :: AnswersMerged(existing.dmAnswers, input.dmAnswers, merged) && AllAnswered(merged) then
      updated == Updated(existing, Some(AnswersIncomplete), false)
    else updated.error == None && RightlyUpdated(existing, input, now, updated.row, updated.autoClosed)
  }

  lemma KeptOrGiven<T>(given: Option<T>, before: Option<T>)
    ensures OrKeep(given, before) == Latest(given, before)
    ensures before.Some? ==> Some(OrElse(given, before.value)) == Latest(given, before)
  {
  }

  lemma AnswersMergedAs(before: DmAnswers, given: DmAnswers)
    ensures AnswersMerged(before, given, MergeAnswers(before, given))
    ensures forall other | AnswersMerged(before, given, other) :: other == MergeAnswers(before, given)
  {
    KeptOrGiven(given.visaStatus, before.visaStatus);
    KeptOrGiven(given.visaExpiry, before.visaExpiry);
    KeptOrGiven(given.residence, before.residence);
    KeptOrGiven(given.workHistory, before.workHistory);
    KeptOrGiven(given.japaneseLevel, before.japaneseLevel);
    KeptOrGiven(given.careerGoal, before.careerGoal);
    hide Latest, OrKeep;
  }

  lemma ReceivedMergedAs(before: Checklist, input: UpdateInput)
    ensures ReceivedMerged(before, input, MergeReceived(before, input))
  {
    KeptOrGiven(input.hasApplicationForm, Some(before.hasApplicationForm));
    KeptOrGiven(input.hasResume, Some(before.hasResume));
    KeptOrGiven(input.hasResidenceCard, Some(before.hasResidenceCard));
    KeptOrGiven(input.hasQualificationDocs, Some(before.hasQualificationDocs));
    KeptOrGiven(input.wantsT2p, Some(before.wantsT2p));
    KeptOrGiven(input.hasT2pPriorConsent, Some(before.hasT2pPriorConsent));
    hide Latest, OrElse;
  }

  lemma AcceptedByColumn(existing: Inquiry, input: UpdateInput, now: int)
    requires existing.status == Open || existing.status == SetSent
    requires Refusal(existing, input).None?
    ensures var updated := Update(existing, input, now);
            updated.error == None && RightlyUpdated(existing, input, now, updated.row, updated.autoClosed)
  {
    hide MergeAnswers, MergeReceived, AnswersMerged, ReceivedMerged, Answered, IsApplicationSetComplete, LacksPaper;
    AnswersMergedAs(existing.dmAnswers, input.dmAnswers);
    ReceivedMergedAs(existing.received, input);
    CompleteIff(MergeReceived(existing.received, input));
  }

  lemma UpdateByColumn(existing: Inquiry, input: UpdateInput, now: int)
    ensures RightlyAnswered(existing, input, now, Update(existing, input, now))
  {
    hide MergeAnswers, AnswersMerged, Answered, RightlyUpdated, Next, ClosesLazily;
    AnswersMergedAs(existing.dmAnswers, input.dmAnswers);
    if Refusal(existing, input).None? {
      AcceptedByColumn(existing, input, now);
    }
  }

  // what the statement that writes an update makes of the row it finds: channel and seeker are not among its
  // columns, and closedAt is only when it closes
  function Overwrite(found: Inquiry, written: Inquiry): Inquiry {
    written.(channel := found.channel,
             promotedJobSeekerId := found.promotedJobSeekerId,
             closedAt := if written.status == Closed then written.closedAt else found.closedAt)
  }

  /** On a row that nobody has written since it was read, the statement leaves what the update says. */
  lemma OverwriteUnchanged(existing: Inquiry, input: UpdateInput, now: int)
    ensures Overwrite(existing, Update(existing, input, now).row) == Update(existing, input, now).row
  {
    hide MergeAnswers, MergeReceived, IsDmComplete;
  }

  // ---------------------------------------------------------------- the bulk close

  predicate Stale(row: Inquiry, now: int) {
    row.status == SetSent && row.setSentAt.Some? && row.setSentAt.value < now - AUTO_CLOSE_MS
  }

  predicate ClosesInBulk(row: Inquiry, now: int) {
    Stale(row, now) && !IsApplicationSetComplete(row.received)
  }

  // sent strictly more than seven days ago and short of a paper
  predicate IsOverdue(row: Inquiry, now: int) {
    && row.status == SetSent && row.setSentAt != None && row.setSentAt.value < now - 604_800_000
    && LacksPaper(row.received)
  }

  // what the closing statement makes of the row it finds
  function MarkClosed(found: Inquiry, now: int): Inquiry {
    found.(status := Closed, closedAt := Some(now), updatedAt := now)
  }

  function BulkClose(row: Inquiry, now: int): Inquiry {
    if ClosesInBulk(row, now) then MarkClosed(row, now) else row
  }

  function CloseStale(inquiries: map<Id, Inquiry>, now: int): map<Id, Inquiry> {
    map id | id in inquiries :: BulkClose(inquiries[id], now)
  }

  lemma OverdueCloses(row: Inquiry, now: int)
    ensures ClosesInBulk(row, now) <==> IsOverdue(row, now)
    ensures BulkClose(row, now) == if IsOverdue(row, now)
                                   then row.(status := Closed, closedAt := Some(now), updatedAt := now)
                                   else row
  {
    CompleteIff(row.received);
  }

  const NO_CHANGE := UpdateInput(DmAnswers(None, None, None, None, None, None), false, None, None, None, None, None,
                                 None, None, true)

  /** An update that changes nothing closes the same rows as the bulk close, except for an incomplete set
      at the very instant of the deadline, which only the update closes. */
  lemma BulkAndLazyCloseAgree(row: Inquiry, now: int)
    ensures (Update(row, NO_CHANGE, now).row.status == Closed <==> BulkClose(row, now).status == Closed)
            <==> !(row.status == SetSent && row.setSentAt == Some(now - 604_800_000) && LacksPaper(row.received))
  {
    assert MergeReceived(row.received, NO_CHANGE) == row.received;
  }

  // ---------------------------------------------------------------- confirmJobSeeker

  datatype ConfirmResult = ConfirmResult(db: Db, jobSeekerId: SeekerId, alreadyProcessed: bool)

  // the job seeker that the key check finds
  function KnownSeeker(outbox: map<Key, OutboxRow>, key: Key): Option<SeekerId> {
    if key in outbox then outbox[key].externalReference else None
  }

  // what the transaction writes when the check has found none
  function WriteConfirm(db: Db, key: Key, details: nat, acceptedAt: Day, newId: SeekerId, now: int): Db {
    db.(seekers := db.seekers[newId := Seeker(details, acceptedAt, None, None, now)],
        outbox := InsertIfAbsent(db.outbox, key, OutboxRow(true, Some(newId))),
        audit := db.audit + [Confirmed(newId, details, acceptedAt)])
  }

  function Confirm(db: Db, key: Key, details: nat, acceptedAt: Day, newId: SeekerId, now: int): ConfirmResult {
    match KnownSeeker(db.outbox, key)
    case Some(known) => ConfirmResult(db, known, true)
    case None => ConfirmResult(WriteConfirm(db, key, details, acceptedAt, newId, now), newId, false)
  }

  // a known key changes nothing and names its job seeker; a new one makes a job seeker, an event and a row of the key
  ghost predicate RightlyConfirmed(before: Db, after: Db, key: Key, details: nat, acceptedAt: Day, newId: SeekerId,
                                   now: int, jobSeekerId: SeekerId, alreadyProcessed: bool)
  {
    if key in before.outbox && before.outbox[key].externalReference != None then
      after == before && alreadyProcessed && before.outbox[key].externalReference == Some(jobSeekerId)
    else
      && jobSeekerId == newId && !alreadyProcessed && after.inquiries == before.inquiries
      && newId in after.seekers && after.seekers == before.seekers[newId := after.seekers[newId]]
      && after.seekers[newId].details == details && after.seekers[newId].acceptedAt == acceptedAt
      && after.seekers[newId].applicationChannel == None && after.seekers[newId].inquiryId == None
      && after.seekers[newId].updatedAt == now
      && after.audit == before.audit + [Confirmed(newId, details, acceptedAt)]
      && after.outbox == if key in before.outbox then before.outbox
                         else before.outbox[key := OutboxRow(true, Some(newId))]
  }

  // ---------------------------------------------------------------- promoteInquiry and its three commits

  datatype PromoteInput = PromoteInput(inquiryId: Id, key: Key, details: nat, acceptedAt: Day)

  datatype Begun =
    | Rejected(error: Error)
    | AlreadyPromoted(jobSeekerId: SeekerId)
    | Proceed(existing: Inquiry, acceptedAt: Day)

  // everything before the first commit
  function Begin(inquiries: map<Id, Inquiry>, input: PromoteInput): Begun {
    if input.inquiryId !in inquiries then Rejected(NotFound)
    else
      var existing := inquiries[input.inquiryId];
      if existing.status == Promoted && existing.promotedJobSeekerId.Some? then
        AlreadyPromoted(existing.promotedJobSeekerId.value)
      else if existing.status == Closed then Rejected(IsClosed)
      else if !IsApplicationSetComplete(existing.received) then Rejected(SetIncomplete)
      else Proceed(existing, OrElse(existing.setReceivedAt, input.acceptedAt))
  }

  // an UPDATE by id that finds no row changes nothing
  function WriteSeeker(seekers: map<SeekerId, Seeker>, jobSeekerId: SeekerId, id: Id, channel: Channel, acceptedAt: Day,
                       now: int)
    : map<SeekerId, Seeker>
  {
    if jobSeekerId !in seekers then seekers
    else seekers[jobSeekerId := seekers[jobSeekerId].(
                   applicationChannel := Some(channel), inquiryId := Some(id), acceptedAt := acceptedAt,
                   updatedAt := now)]
  }

  function WriteInquiry(inquiries: map<Id, Inquiry>, id: Id, jobSeekerId: SeekerId, acceptedAt: Day,
                        now: int): map<Id, Inquiry> {
    if id !in inquiries then inquiries
    else inquiries[id := inquiries[id].(
                     status := Promoted, promotedJobSeekerId := Some(jobSeekerId), setReceivedAt := Some(acceptedAt),
                     updatedAt := now)]
  }

  // what a call must find before its first commit: the date is that of the receipt, if there is one
  ghost predicate RightlyBegun(inquiries: map<Id, Inquiry>, input: PromoteInput, begun: Begun) {
    if input.inquiryId !in inquiries then begun == Rejected(NotFound)
    else
      var row := inquiries[input.inquiryId];
      if row.status == Promoted && row.promotedJobSeekerId != None then
        begun == AlreadyPromoted(row.promotedJobSeekerId.value)
      else if row.status == Closed then begun == Rejected(IsClosed)
      else if LacksPaper(row.received) then begun == Rejected(SetIncomplete)
      else begun == Proceed(row, if row.setReceivedAt != None then row.setReceivedAt.value else input.acceptedAt)
  }

  // the job seeker's row after the second commit, and the inquiry's after the third, as found by them
  ghost predicate SeekerMarked(before: Seeker, after: Seeker, id: Id, channel: Channel, acceptedAt: Day, now: int) {
    && after.applicationChannel == Some(channel) && after.inquiryId == Some(id) && after.acceptedAt == acceptedAt
    && after.updatedAt == now && after.details == before.details
  }

  ghost predicate InquiryPromoted(before: Inquiry, after: Inquiry, seeker: SeekerId, acceptedAt: Day, now: int) {
    && after.status == Promoted && after.promotedJobSeekerId == Some(seeker) && after.setReceivedAt == Some(acceptedAt)
    && after.updatedAt == now
    && after == before.(status := after.status, promotedJobSeekerId := after.promotedJobSeekerId,
                        setReceivedAt := after.setReceivedAt, updatedAt := after.updatedAt)
  }

  // the tables that a call leaves after the given number of commits
  ghost predicate RightlyPromoted(before: Db, after: Db, input: PromoteInput, begun: Begun, newId: SeekerId, now: int,
                                  commits: nat)
  {
    if !begun.Proceed? || commits == 0 then after == before
    else
      exists confirmed: Db, seeker: SeekerId, known: bool ::
        && RightlyConfirmed(before, confirmed, input.key, input.details, begun.acceptedAt, newId, now, seeker, known)
        && after.outbox == confirmed.outbox && after.audit == confirmed.audit
        && after.seekers.Keys == confirmed.seekers.Keys && after.inquiries.Keys == before.inquiries.Keys
        && (forall s | s in after.seekers && (s != seeker || commits == 1) :: after.seekers[s] == confirmed.seekers[s])
        && (commits >= 2 && seeker in after.seekers ==>
              SeekerMarked(confirmed.seekers[seeker], after.seekers[seeker], input.inquiryId, begun.existing.channel,
                           begun.acceptedAt, now))
        && (forall id | id in after.inquiries && (id != input.inquiryId || commits <= 2) ::
              after.inquiries[id] == before.inquiries[id])
        && (commits >= 3 && input.inquiryId in after.inquiries ==>
              InquiryPromoted(before.inquiries[input.inquiryId], after.inquiries[input.inquiryId], seeker,
                              begun.acceptedAt, now))
  }

  lemma PromoteIsRight(db: Db, input: PromoteInput, newId: SeekerId, now: int, commits: nat)
    ensures RightlyBegun(db.inquiries, input, Begin(db.inquiries, input))
    ensures RightlyPromoted(db, Promote(db, input, newId, now, commits), input, Begin(db.inquiries, input), newId, now,
                            commits)
  {
    var begun := Begin(db.inquiries, input);
    if begun.Proceed? {
      var confirmed := Confirm(db, input.key, input.details, begun.acceptedAt, newId, now);
      assert RightlyConfirmed(db, confirmed.db, input.key, input.details, begun.acceptedAt, newId, now,
                              confirmed.jobSeekerId, confirmed.alreadyProcessed);
    }
  }

  // the process stops right after the given number of commits
  function Promote(db: Db, input: PromoteInput, newId: SeekerId, now: int, commits: nat): Db {
    var begun := Begin(db.inquiries, input);
    if !begun.Proceed? || commits == 0 then db
    else
      var confirmed := Confirm(db, input.key, input.details, begun.acceptedAt, newId, now);
      if commits == 1 then confirmed.db
      else
        var written := confirmed.db.(
          seekers := WriteSeeker(confirmed.db.seekers, confirmed.jobSeekerId, input.inquiryId, begun.existing.channel,
                                 begun.acceptedAt, now));
        if commits == 2 then written
        else written.(inquiries := WriteInquiry(written.inquiries, input.inquiryId, confirmed.jobSeekerId,
                                                begun.acceptedAt, now))
  }

  // ---------------------------------------------------------------- the operations

  class InquiryDesk {
    var inquiries: map<Id, Inquiry>
    var seekers: map<SeekerId, Seeker>
    var outbox: map<Key, OutboxRow>
    var audit: seq<Confirmed>

    constructor ()
      ensures Tables() == Db(map[], map[], map[], [])
    {
      inquiries, seekers, outbox, audit := map[], map[], map[], [];
    }

    ghost function Tables(): Db
      reads this
    {
      Db(inquiries, seekers, outbox, audit)
    }

    method RecordInquiry(id: Id, channel: Channel, answers: DmAnswers, now: int) returns (dmComplete: bool)
      requires id !in inquiries
      modifies this`inquiries
      ensures inquiries == old(inquiries)[id := Record(channel, answers, now)]
      ensures dmComplete <==> AllAnswered(answers)
      ensures inquiries == old(inquiries)[id := inquiries[id]] && IsNewInquiry(inquiries[id], channel, answers, now)
    {
      dmComplete := IsDmComplete(answers);
      inquiries := inquiries[id := Inquiry(channel, Open, answers, dmComplete,
                                           Checklist(false, false, false, false, false, false), None, None, now, None,
                                           None, now)];
    }

    method UpdateInquiry(id: Id, input: UpdateInput, now: int) returns (error: Option<Error>, autoClosed: bool)
      modifies this`inquiries
      ensures id !in old(inquiries) ==> inquiries == old(inquiries) && error == Some(NotFound) && !autoClosed
      ensures id in old(inquiries) ==>
                && inquiries == old(inquiries)[id := Update(old(inquiries)[id], input, now).row]
                && error == Update(old(inquiries)[id], input, now).error
                && autoClosed == Update(old(inquiries)[id], input, now).autoClosed
                && inquiries == old(inquiries)[id := inquiries[id]]
                && RightlyAnswered(old(inquiries)[id], input, now, Updated(inquiries[id], error, autoClosed))
    {
      autoClosed := false;
      if id !in inquiries {
        return Some(NotFound), false;
      }
      var existing := inquiries[id];
      UpdateByColumn(existing, input, now);
      hide RightlyAnswered;
      if existing.status == Promoted || existing.status == Closed {
        assert inquiries == inquiries[id := existing];
        return Some(AlreadyFinal), false;
      }
      var dmAnswers := MergeAnswers(existing.dmAnswers, input.dmAnswers);
      var dmComplete := IsDmComplete(dmAnswers);
      var status := existing.status;
      if input.setSent && status == Open {
        if !dmComplete {
          assert inquiries == inquiries[id := existing];
          return Some(AnswersIncomplete), false;
        }
        status := SetSent;
      }
      var setSentAt := existing.setSentAt;
      if input.setSent && setSentAt.None? {
        setSentAt := Some(now);
      }
      var received := MergeReceived(existing.received, input);
      var next := existing.(dmAnswers := dmAnswers, dmComplete := dmComplete, received := received,
                            setSentAt := setSentAt, lastContactAt := now, status := status, updatedAt := now,
                            setReceivedAt := OrKeep(input.setReceivedAt, existing.setReceivedAt));
      if input.autoCloseStale && status == SetSent && setSentAt.Some? {
        var deadline := setSentAt.value + AUTO_CLOSE_MS;
        var setComplete := IsApplicationSetComplete(received);
        if !setComplete && now >= deadline {
          inquiries := inquiries[id := next.(status := Closed, closedAt := Some(now))];
          return None, true;
        }
      }
      inquiries := inquiries[id := next];
      error := None;
    }

    method ConfirmJobSeeker(key: Key, details: nat, acceptedAt: Day, newId: SeekerId, now: int)
      returns (jobSeekerId: SeekerId, alreadyProcessed: bool)
      requires newId !in seekers
      modifies this`seekers, this`outbox, this`audit
      ensures ConfirmResult(Tables(), jobSeekerId, alreadyProcessed)
              == Confirm(old(Tables()), key, details, acceptedAt, newId, now)
      ensures RightlyConfirmed(old(Tables()), Tables(), key, details, acceptedAt, newId, now, jobSeekerId,
                               alreadyProcessed)
    {
      if key in outbox && outbox[key].externalReference.Some? {
        return outbox[key].externalReference.value, true;
      }
      seekers := seekers[newId := Seeker(details, acceptedAt, None, None, now)];
      audit := audit + [Confirmed(newId, details, acceptedAt)];
      if key !in outbox {
        outbox := outbox[key := OutboxRow(true, Some(newId))];
      }
      return newId, false;
    }

    // `commits` is how many commits the process lives to see; three is an uninterrupted call
    method PromoteInquiry(input: PromoteInput, newId: SeekerId, now: int, commits: nat) returns (begun: Begun)
      requires newId !in seekers
      modifies this
      ensures begun == Begin(old(inquiries), input)
      ensures Tables() == Promote(old(Tables()), input, newId, now, commits)
      ensures RightlyBegun(old(inquiries), input, begun)
      ensures RightlyPromoted(old(Tables()), Tables(), input, begun, newId, now, commits)
    {
      PromoteIsRight(Tables(), input, newId, now, commits);
      hide RightlyBegun, RightlyPromoted;
      begun := Begin(inquiries, input);
      if !begun.Proceed? || commits == 0 {
        return;
      }
      var jobSeekerId, alreadyProcessed := ConfirmJobSeeker(input.key, input.details, begun.acceptedAt, newId, now);
      if commits == 1 {
        return;
      }
      if jobSeekerId in seekers {
        seekers := seekers[jobSeekerId := seekers[jobSeekerId].(
          applicationChannel := Some(begun.existing.channel), inquiryId := Some(input.inquiryId),
          acceptedAt := begun.acceptedAt, updatedAt := now)];
      }
      if commits == 2 {
        return;
      }
      inquiries := inquiries[input.inquiryId := inquiries[input.inquiryId].(
        status := Promoted, promotedJobSeekerId := Some(jobSeekerId), setReceivedAt := Some(begun.acceptedAt),
        updatedAt := now)];
    }

    // the stale rows come in any order
    method CloseStaleInquiries(now: int) returns (closedCount: nat)
      modifies this`inquiries
      ensures inquiries == CloseStale(old(inquiries), now)
      ensures inquiries.Keys == old(inquiries).Keys
      ensures forall id | id in old(inquiries) ::
                inquiries[id] == if IsOverdue(old(inquiries)[id], now)
                                 then old(inquiries)[id].(status := Closed, closedAt := Some(now), updatedAt := now)
                                 else old(inquiries)[id]
      ensures closedCount == |set id | id in old(inquiries) && IsOverdue(old(inquiries)[id], now)|
    {
      var stale := set id | id in inquiries && Stale(inquiries[id], now);
      ghost var closed: set<Id> := {};
      closedCount := 0;
      while stale != {}
        invariant stale !! closed
        invariant inquiries.Keys == old(inquiries).Keys
        invariant forall id | id in inquiries ::
                    inquiries[id] == if id in closed then BulkClose(old(inquiries)[id], now) else old(inquiries)[id]
        invariant forall id | id in stale :: id in inquiries && Stale(inquiries[id], now)
        invariant forall id | id in inquiries && ClosesInBulk(old(inquiries)[id], now) :: id in stale || id in closed
        invariant forall id | id in closed :: id in inquiries && ClosesInBulk(old(inquiries)[id], now)
        invariant closedCount == |closed|
        decreases stale
      {
        var id :| id in stale;
        stale := stale - {id};
        var row := inquiries[id];
        if !IsApplicationSetComplete(row.received) {
          inquiries := inquiries[id := row.(status := Closed, closedAt := Some(now), updatedAt := now)];
          closed := closed + {id};
          closedCount := closedCount + 1;
        }
      }
      hide Stale, ClosesInBulk, BulkClose, IsOverdue;
      forall id | id in old(inquiries) {
        OverdueCloses(old(inquiries)[id], now);
      }
      assert closed == set id | id in old(inquiries) && IsOverdue(old(inquiries)[id], now);
    }
  }

  // ---------------------------------------------------------------- crash and retry

  // a run of attempts with one input, each stopped after some commit and each with its own newId id and clock
  datatype Attempt = Attempt(newId: SeekerId, now: int, commits: nat)

  function Attempts(db: Db, input: PromoteInput, attempts: seq<Attempt>): Db {
    if attempts == [] then db
    else
      var last := attempts[|attempts| - 1];
      Promote(Attempts(db, input, attempts[..|attempts| - 1]), input, last.newId, last.now, last.commits)
  }

  predicate SameInquiry(a: Inquiry, b: Inquiry) {
    a.(updatedAt := 0) == b.(updatedAt := 0)
  }

  predicate SameInquiries(a: map<Id, Inquiry>, b: map<Id, Inquiry>) {
    a.Keys == b.Keys && forall id | id in a :: SameInquiry(a[id], b[id])
  }

  predicate SameSeekers(a: map<SeekerId, Seeker>, b: map<SeekerId, Seeker>) {
    a.Keys == b.Keys && forall s | s in a :: a[s].(updatedAt := 0) == b[s].(updatedAt := 0)
  }

  // equal apart from timestamps
  predicate SameUpToTimestamps(a: Db, b: Db) {
    SameInquiries(a.inquiries, b.inquiries) && SameSeekers(a.seekers, b.seekers) && a.outbox == b.outbox
      && a.audit == b.audit
  }

  lemma SameBegin(a: map<Id, Inquiry>, b: map<Id, Inquiry>, input: PromoteInput)
    requires SameInquiries(a, b)
    ensures var x, y := Begin(a, input), Begin(b, input);
            && (x.Proceed? <==> y.Proceed?)
            && (x.Proceed? ==> x.acceptedAt == y.acceptedAt && x.existing.channel == y.existing.channel)
  {
    assert input.inquiryId in a ==> SameInquiry(a[input.inquiryId], b[input.inquiryId]);
  }

  lemma SameSeekerWrites(a: map<SeekerId, Seeker>, b: map<SeekerId, Seeker>, s: SeekerId, id: Id, channel: Channel,
                         acceptedAt: Day, t: int, u: int)
    requires SameSeekers(a, b)
    ensures SameSeekers(WriteSeeker(a, s, id, channel, acceptedAt, t), WriteSeeker(b, s, id, channel, acceptedAt, u))
  {
  }

  lemma SameInquiryWrites(a: map<Id, Inquiry>, b: map<Id, Inquiry>, id: Id, s: SeekerId, acceptedAt: Day, t: int,
                          u: int)
    requires SameInquiries(a, b)
    ensures SameInquiries(WriteInquiry(a, id, s, acceptedAt, t), WriteInquiry(b, id, s, acceptedAt, u))
  {
    assert id in a ==> SameInquiry(a[id], b[id]);
  }

  lemma SameWrites(a: Db, b: Db, s: SeekerId, id: Id, channel: Channel, acceptedAt: Day, t: int, u: int)
    requires SameUpToTimestamps(a, b)
    ensures SameSeekers(WriteSeeker(a.seekers, s, id, channel, acceptedAt, t),
                        WriteSeeker(b.seekers, s, id, channel, acceptedAt, u))
    ensures SameInquiries(WriteInquiry(a.inquiries, id, s, acceptedAt, t),
                          WriteInquiry(b.inquiries, id, s, acceptedAt, u))
  {
    SameSeekerWrites(a.seekers, b.seekers, s, id, channel, acceptedAt, t, u);
    SameInquiryWrites(a.inquiries, b.inquiries, id, s, acceptedAt, t, u);
  }

  lemma SameInserts(a: map<SeekerId, Seeker>, b: map<SeekerId, Seeker>, s: SeekerId, x: Seeker, y: Seeker)
    requires SameSeekers(a, b) && x.(updatedAt := 0) == y.(updatedAt := 0)
    ensures SameSeekers(a[s := x], b[s := y])
  {
  }

  lemma SameSeekersAgain(a: map<SeekerId, Seeker>, b: map<SeekerId, Seeker>, s: SeekerId, id: Id, channel: Channel,
                         acceptedAt: Day, t: int, u: int)
    requires SameSeekers(a, WriteSeeker(b, s, id, channel, acceptedAt, u))
    ensures SameSeekers(WriteSeeker(a, s, id, channel, acceptedAt, t), WriteSeeker(b, s, id, channel, acceptedAt, u))
  {
  }

  function Further(reached: nat, commits: nat): nat
    requires reached <= 3
  {
    if reached >= commits then reached else if commits >= 3 then 3 else commits
  }

  // how many commits an attempt of this list has reached
  function Reached(attempts: seq<Attempt>): (reached: nat)
    ensures reached <= 3
  {
    if attempts == [] then 0
    else
      Further(Reached(attempts[..|attempts| - 1]), attempts[|attempts| - 1].commits)
  }

  // the id of the seeker that the first attempt to reach a commit has made
  function Winner(attempts: seq<Attempt>): SeekerId
    requires Reached(attempts) > 0
  {
    var before := attempts[..|attempts| - 1];
    if Reached(before) > 0 then Winner(before) else attempts[|attempts| - 1].newId
  }

  // one more attempt on tables in which none, one, two or all commits of an uninterrupted call are done
  lemma AttemptFromStart(db: Db, input: PromoteInput, now: int, current: Db, next: Attempt)
    requires input.key !in db.outbox && next.newId !in db.seekers
    requires SameUpToTimestamps(current, db)
    ensures SameUpToTimestamps(Promote(current, input, next.newId, next.now, next.commits),
                               Promote(db, input, next.newId, now, Further(0, next.commits)))
  {
    hide Begin, WriteSeeker, WriteInquiry, SameInquiries, SameSeekers;
    SameBegin(current.inquiries, db.inquiries, input);
    var begun := Begin(db.inquiries, input);
    if begun.Proceed? {
      var mine := Confirm(current, input.key, input.details, begun.acceptedAt, next.newId, next.now).db;
      var straight := Confirm(db, input.key, input.details, begun.acceptedAt, next.newId, now).db;
      SameInserts(current.seekers, db.seekers, next.newId, mine.seekers[next.newId], straight.seekers[next.newId]);
      SameWrites(mine, straight, next.newId, input.inquiryId, begun.existing.channel, begun.acceptedAt, next.now, now);
    }
  }

  lemma AttemptAfterConfirm(db: Db, input: PromoteInput, id: SeekerId, now: int, current: Db, next: Attempt)
    requires input.key !in db.outbox && id !in db.seekers
    requires SameUpToTimestamps(current, Promote(db, input, id, now, 1))
    ensures SameUpToTimestamps(Promote(current, input, next.newId, next.now, next.commits),
                               Promote(db, input, id, now, Further(1, next.commits)))
  {
    hide Begin, WriteSeeker, WriteInquiry, SameInquiries, SameSeekers;
    var begun := Begin(db.inquiries, input);
    SameBegin(current.inquiries, db.inquiries, input);
    if begun.Proceed? {
      var straight := Confirm(db, input.key, input.details, begun.acceptedAt, id, now).db;
      SameWrites(current, straight, id, input.inquiryId, begun.existing.channel, begun.acceptedAt, next.now, now);
    }
  }

  lemma AttemptAfterSeeker(db: Db, input: PromoteInput, id: SeekerId, now: int, current: Db, next: Attempt)
    requires input.key !in db.outbox && id !in db.seekers
    requires SameUpToTimestamps(current, Promote(db, input, id, now, 2))
    ensures SameUpToTimestamps(Promote(current, input, next.newId, next.now, next.commits),
                               Promote(db, input, id, now, Further(2, next.commits)))
  {
    hide Begin, WriteSeeker, WriteInquiry, SameInquiries, SameSeekers;
    var begun := Begin(db.inquiries, input);
    SameBegin(current.inquiries, db.inquiries, input);
    if begun.Proceed? {
      var straight := Confirm(db, input.key, input.details, begun.acceptedAt, id, now).db;
      SameSeekersAgain(current.seekers, straight.seekers, id, input.inquiryId, begun.existing.channel, begun.acceptedAt,
                       next.now, now);
      SameInquiryWrites(current.inquiries, straight.inquiries, input.inquiryId, id, begun.acceptedAt, next.now, now);
    }
  }

  lemma AttemptAfterAll(db: Db, input: PromoteInput, id: SeekerId, now: int, current: Db, next: Attempt)
    requires input.key !in db.outbox && id !in db.seekers
    requires SameUpToTimestamps(current, Promote(db, input, id, now, 3))
    ensures SameUpToTimestamps(Promote(current, input, next.newId, next.now, next.commits),
                               Promote(db, input, id, now, 3))
  {
  }

  lemma OneAttempt(db: Db, input: PromoteInput, id: SeekerId, now: int, reached: nat, current: Db, next: Attempt)
    requires input.key !in db.outbox && id !in db.seekers && next.newId !in db.seekers && reached <= 3
    requires SameUpToTimestamps(current, Promote(db, input, id, now, reached))
    ensures SameUpToTimestamps(Promote(current, input, next.newId, next.now, next.commits),
                               Promote(db, input, if reached > 0 then id else next.newId, now,
                                       Further(reached, next.commits)))
  {
    match reached
    case 0 =>
      NothingDone(db, input, id, now);
      AttemptFromStart(db, input, now, current, next);
    case 1 => hide Promote, SameUpToTimestamps; AttemptAfterConfirm(db, input, id, now, current, next);
    case 2 => hide Promote, SameUpToTimestamps; AttemptAfterSeeker(db, input, id, now, current, next);
    case 3 => hide Promote, SameUpToTimestamps; AttemptAfterAll(db, input, id, now, current, next);
  }

  lemma NothingDone(db: Db, input: PromoteInput, id: SeekerId, now: int)
    ensures Promote(db, input, id, now, 0) == db
  {
  }

  predicate NewIds(db: Db, attempts: seq<Attempt>) {
    forall i | 0 <= i < |attempts| :: attempts[i].newId !in db.seekers
  }

  lemma {:induction false} AttemptsReach(db: Db, input: PromoteInput, attempts: seq<Attempt>, now: int)
    requires input.key !in db.outbox && NewIds(db, attempts)
    ensures Reached(attempts) > 0 ==> Winner(attempts) !in db.seekers
    ensures SameUpToTimestamps(Attempts(db, input, attempts),
                               if Reached(attempts) > 0
                               then Promote(db, input, Winner(attempts), now, Reached(attempts))
                               else db)
  {
    hide Promote;
    if attempts != [] {
      var before, last := attempts[..|attempts| - 1], attempts[|attempts| - 1];
      AttemptsReach(db, input, before, now);
      var id := if Reached(before) > 0 then Winner(before) else last.newId;
      NothingDone(db, input, id, now);
      OneAttempt(db, input, id, now, Reached(before), Attempts(db, input, before), last);
    }
  }

  /** However often promoteInquiry crashes, after whichever commits, once it is retried to its end with the same
      input the tables are those of one uninterrupted call, apart from timestamps: the key has brought exactly
      one job seeker, one audit event and one outbox row. */
  lemma CrashAndRetry(db: Db, input: PromoteInput, attempts: seq<Attempt>, last: Attempt, now: int)
    requires input.key !in db.outbox && NewIds(db, attempts + [last]) && last.commits >= 3
    ensures SameUpToTimestamps(Attempts(db, input, attempts + [last]),
                               Promote(db, input, Winner(attempts + [last]), now, 3))
    ensures Begin(db.inquiries, input).Proceed? ==>
              var final := Attempts(db, input, attempts + [last]);
              && final.seekers.Keys == db.seekers.Keys + {Winner(attempts + [last])}
              && final.outbox == db.outbox[input.key := OutboxRow(true, Some(Winner(attempts + [last])))]
              && final.audit == db.audit
                + [Confirmed(Winner(attempts + [last]), input.details, Begin(db.inquiries, input).acceptedAt)]
  {
    assert (attempts + [last])[..|attempts|] == attempts;
    AttemptsReach(db, input, attempts + [last], now);
  }
}
