/** Runs from empty tables that show what overlapping calls on one inquiry can do: for each exact condition of
    InquiryOutcomes, a run in which it fails. */
module InquiryOverlaps {
  import opened Tables
  import opened Inquiries
  import opened InquiryRuns
  import opened InquiryOutcomes

  // ---------------------------------------------------------------- reachable states

  ghost predicate Reachable(st: State, uses: Uses) {
    exists states, steps :: IsRun(states, steps, uses) && states[|steps|] == st
  }

  lemma ReachableNext(st: State, step: Step, uses: Uses, next: State)
    requires Reachable(st, uses) && Enabled(st, step, uses) && Apply(st, step, uses) == next
    ensures Reachable(next, uses)
  {
    hide Apply, Enabled, Initial;
    var states, steps :| IsRun(states, steps, uses) && states[|steps|] == st;
    var longer, more := states + [next], steps + [step];
    assert longer[0] == states[0];
    assert IsRun(longer, more, uses) && longer[|more|] == next;
  }

  // every key is one of inquiry 0
  function TheUses(): Uses {
    key => ForInquiry(0)
  }

  const ANSWERS := DmAnswers(Some("a"), Some("a"), Some("a"), Some("a"), Some("a"), Some("a"))
  const NOTHING := Checklist(false, false, false, false, false, false)
  const ALL := Checklist(true, true, true, true, false, false)
  const NO_ANSWERS := DmAnswers(None, None, None, None, None, None)

  // an update of the four documents
  function Documents(setSent: bool, received: bool, autoCloseStale: bool): UpdateInput {
    UpdateInput(NO_ANSWERS, setSent, Some(received), Some(received), Some(received), Some(received), None, None, None,
                autoCloseStale)
  }

  function Sent(received: Checklist): Inquiry {
    Inquiry(WinJob, SetSent, ANSWERS, true, received, Some(0), None, 0, None, None, 0)
  }

  // inquiry 0 alone, before any confirm
  function Plain(row: Inquiry, now: int, calls: map<CallId, Call>): State {
    State(Db(map[0 := row], map[], map[], []), now, calls, map[])
  }

  lemma AnswersComplete()
    ensures IsDmComplete(ANSWERS)
  {
    assert 'a' in "a";
    AnsweredIff(Some("a"));
    hide Answered;
  }

  // an inquiry is recorded and sent its set, with all documents received at once or none
  lemma SentReachable(received: bool)
    ensures Reachable(Plain(Sent(if received then ALL else NOTHING), 0, map[]), TheUses())
  {
    var empty := State(Db(map[], map[], map[], []), 0, map[], map[]);
    hide IsDmComplete, Reachable;
    assert Reachable(empty, TheUses()) by { EmptyReachable(empty); }
    AnswersComplete();
    var open := Record(WinJob, ANSWERS, 0);
    ReachableNext(empty, RecordStep(0, WinJob, ANSWERS), TheUses(), Plain(open, 0, map[]));
    var read := Plain(open, 0, map[0 := Updating(0, open, Documents(true, received, true), 0)]);
    assert MergeAnswers(ANSWERS, NO_ANSWERS) == ANSWERS;
    ReachableNext(Plain(open, 0, map[]), ReadUpdateStep(0, 0, Documents(true, received, true)), TheUses(), read);
    ReachableNext(read, WriteUpdateStep(0, 0), TheUses(), Plain(Sent(if received then ALL else NOTHING), 0, map[]));
  }

  lemma EmptyReachable(empty: State)
    requires Initial(empty)
    ensures Reachable(empty, TheUses())
  {
    assert IsRun([empty], [], TheUses()) && [empty][0] == empty;
  }

  // ---------------------------------------------------------------- a promotion among other calls

  function Input(key: Key, date: Day): PromoteInput {
    PromoteInput(0, key, 0, date)
  }

  // a promotion of inquiry 0 as sent with all documents
  function Promotion(key: Key, date: Day, stage: Stage): Call {
    Promoting(Input(key, date), Sent(ALL), date, stage)
  }

  function NewSeeker(date: Day): Seeker {
    Seeker(0, date, None, None, 0)
  }

  function OwnedSeeker(date: Day): Seeker {
    Seeker(0, date, Some(WinJob), Some(0), 0)
  }

  // after the confirm of seeker 0 under key 0
  function OneSeeker(row: Inquiry, seeker: Seeker, date: Day, now: int, calls: map<CallId, Call>): State {
    State(Db(map[0 := row], map[0 := seeker], map[0 := OutboxRow(true, Some(0))], [Confirmed(0, 0, date)]), now, calls,
          map[0 := 0])
  }

  // a promotion under key 0 with date 1 goes up to its last commit beside another call
  lemma WrittenReachable(other: map<CallId, Call>)
    requires Reachable(Plain(Sent(ALL), 0, other), TheUses()) && 1 !in other
    ensures Reachable(OneSeeker(Sent(ALL), OwnedSeeker(1), 1, 0, other[1 := Promotion(0, 1, HasWritten(0))]), TheUses())
  {
    hide Reachable, IsDmComplete;
    var begun := Plain(Sent(ALL), 0, other[1 := Promotion(0, 1, HasRead)]);
    ReachableNext(Plain(Sent(ALL), 0, other), BeginStep(1, Input(0, 1)), TheUses(), begun);
    ConfirmedReachable(other);
    SeekerWrittenReachable(other);
  }

  lemma ConfirmedReachable(other: map<CallId, Call>)
    requires Reachable(Plain(Sent(ALL), 0, other[1 := Promotion(0, 1, HasRead)]), TheUses())
    ensures Reachable(OneSeeker(Sent(ALL), NewSeeker(1), 1, 0, other[1 := Promotion(0, 1, HasConfirmed(0))]), TheUses())
  {
    hide Reachable, IsDmComplete;
    var missed := Plain(Sent(ALL), 0, other[1 := Promotion(0, 1, HasMissed)]);
    ReachableNext(Plain(Sent(ALL), 0, other[1 := Promotion(0, 1, HasRead)]), LookStep(1), TheUses(), missed);
    ReachableNext(missed, ConfirmStep(1, 0), TheUses(),
                  OneSeeker(Sent(ALL), NewSeeker(1), 1, 0, other[1 := Promotion(0, 1, HasConfirmed(0))]));
  }

  lemma SeekerWrittenReachable(other: map<CallId, Call>)
    requires Reachable(OneSeeker(Sent(ALL), NewSeeker(1), 1, 0, other[1 := Promotion(0, 1, HasConfirmed(0))]),
                       TheUses())
    ensures Reachable(OneSeeker(Sent(ALL), OwnedSeeker(1), 1, 0, other[1 := Promotion(0, 1, HasWritten(0))]), TheUses())
  {
    hide Reachable, IsDmComplete;
    ReachableNext(OneSeeker(Sent(ALL), NewSeeker(1), 1, 0, other[1 := Promotion(0, 1, HasConfirmed(0))]),
                  WriteSeekerStep(1), TheUses(),
                  OneSeeker(Sent(ALL), OwnedSeeker(1), 1, 0, other[1 := Promotion(0, 1, HasWritten(0))]));
  }

  /** A late update: it reads the inquiry, waits out a whole promotion and writes "set sent" back over "promoted". */
  lemma LateUpdateUnpromotes() returns (promoted: State, next: State)
    ensures Reachable(promoted, TheUses()) && 0 in promoted.db.inquiries && promoted.db.inquiries[0].status == Promoted
    ensures Enabled(promoted, WriteUpdateStep(0, 0), TheUses())
            && next == Apply(promoted, WriteUpdateStep(0, 0), TheUses())
    ensures 0 in next.db.inquiries && next.db.inquiries[0].status == SetSent && next.calls == map[]
  {
    hide Reachable, IsDmComplete;
    SentReachable(true);
    var late := Updating(0, Sent(ALL), NO_CHANGE, 0);
    var read := Plain(Sent(ALL), 0, map[0 := late]);
    ReachableNext(Plain(Sent(ALL), 0, map[]), ReadUpdateStep(0, 0, NO_CHANGE), TheUses(), read);
    WrittenReachable(map[0 := late]);
    promoted := OneSeeker(PromotedRow(Sent(ALL), 0, 1, 0), OwnedSeeker(1), 1, 0, map[0 := late]);
    ReachableNext(OneSeeker(Sent(ALL), OwnedSeeker(1), 1, 0, map[0 := late][1 := Promotion(0, 1, HasWritten(0))]),
                  WriteInquiryStep(1), TheUses(), promoted);
    next := Apply(promoted, WriteUpdateStep(0, 0), TheUses());
  }

  /** A disturbed promotion: before its last commit an update takes the documents back and, a week later, the bulk
      close closes the inquiry; the commit then promotes a closed inquiry without a complete set. */
  lemma DisturbedPromotionBreaks() returns (closed: State, next: State)
    ensures Reachable(closed, TheUses()) && 0 in closed.db.inquiries && closed.db.inquiries[0].status == Closed
    ensures Enabled(closed, WriteInquiryStep(1), TheUses()) && next == Apply(closed, WriteInquiryStep(1), TheUses())
    ensures 0 in next.db.inquiries && next.db.inquiries[0].status == Promoted
    ensures LacksPaper(next.db.inquiries[0].received)
  {
    hide Reachable, IsDmComplete;
    SentReachable(true);
    WrittenReachable(map[]);
    var flight := Promotion(0, 1, HasWritten(0));
    var written := OneSeeker(Sent(ALL), OwnedSeeker(1), 1, 0, map[1 := flight]);
    assert map[][1 := flight] == map[1 := flight];
    closed := TakenBackAndClosed(flight);
    next := Apply(closed, WriteInquiryStep(1), TheUses());
  }

  const LATE := 604_800_001

  lemma TakenBackAndClosed(flight: Call) returns (closed: State)
    requires Reachable(OneSeeker(Sent(ALL), OwnedSeeker(1), 1, 0, map[1 := flight]), TheUses())
    ensures Reachable(closed, TheUses())
    ensures closed == OneSeeker(MarkClosed(Sent(NOTHING), LATE), OwnedSeeker(1), 1, LATE,
                                map[1 := flight, 3 := Closing({}, LATE)])
  {
    hide Reachable, IsDmComplete;
    TakenBack(flight);
    var aWeekOn := OneSeeker(Sent(NOTHING), OwnedSeeker(1), 1, LATE, map[1 := flight]);
    ReachableNext(OneSeeker(Sent(NOTHING), OwnedSeeker(1), 1, 0, map[1 := flight]), TickStep(LATE), TheUses(), aWeekOn);
    Selected(flight);
    assert {0} - {0} == {};
    closed := OneSeeker(MarkClosed(Sent(NOTHING), LATE), OwnedSeeker(1), 1, LATE,
                        map[1 := flight, 3 := Closing({}, LATE)]);
    ReachableNext(OneSeeker(Sent(NOTHING), OwnedSeeker(1), 1, LATE, map[1 := flight, 3 := Closing({0}, LATE)]),
                  CloseOneStep(3, 0, LATE), TheUses(), closed);
  }

  lemma TakenBack(flight: Call)
    requires Reachable(OneSeeker(Sent(ALL), OwnedSeeker(1), 1, 0, map[1 := flight]), TheUses())
    ensures Reachable(OneSeeker(Sent(NOTHING), OwnedSeeker(1), 1, 0, map[1 := flight]), TheUses())
  {
    hide Reachable;
    var back := Documents(false, false, false);
    AnswersComplete();
    hide IsDmComplete;
    assert MergeAnswers(ANSWERS, NO_ANSWERS) == ANSWERS;
    var read := OneSeeker(Sent(ALL), OwnedSeeker(1), 1, 0, map[1 := flight, 2 := Updating(0, Sent(ALL), back, 0)]);
    ReachableNext(OneSeeker(Sent(ALL), OwnedSeeker(1), 1, 0, map[1 := flight]), ReadUpdateStep(2, 0, back), TheUses(),
                  read);
    ReachableNext(read, WriteUpdateStep(2, 0), TheUses(),
                  OneSeeker(Sent(NOTHING), OwnedSeeker(1), 1, 0, map[1 := flight]));
  }

  lemma Selected(flight: Call)
    requires Reachable(OneSeeker(Sent(NOTHING), OwnedSeeker(1), 1, LATE, map[1 := flight]), TheUses())
    ensures Reachable(OneSeeker(Sent(NOTHING), OwnedSeeker(1), 1, LATE, map[1 := flight, 3 := Closing({0}, LATE)]),
                      TheUses())
  {
    hide Reachable, IsDmComplete;
    assert StaleIds(map[0 := Sent(NOTHING)], LATE) == {0};
    ReachableNext(OneSeeker(Sent(NOTHING), OwnedSeeker(1), 1, LATE, map[1 := flight]),
                  SelectStaleStep(3, LATE), TheUses(),
                  OneSeeker(Sent(NOTHING), OwnedSeeker(1), 1, LATE, map[1 := flight, 3 := Closing({0}, LATE)]));
  }

  /** A late bulk close: an update completes the set after the select, and the inquiry is closed all the same. */
  lemma LateCloseBreaks() returns (closed: State)
    ensures Reachable(closed, TheUses()) && 0 in closed.db.inquiries && closed.db.inquiries[0].status == Closed
    ensures !LacksPaper(closed.db.inquiries[0].received) && !ClosedSafe(closed.db.inquiries[0])
  {
    hide Reachable, IsDmComplete;
    CompletedLate();
    assert {0} - {0} == {};
    closed := Plain(MarkClosed(Completed(), LATE), LATE, map[1 := Closing({}, LATE)]);
    ReachableNext(Plain(Completed(), LATE, map[1 := Closing({0}, LATE)]), CloseOneStep(1, 0, LATE), TheUses(), closed);
  }

  function Completed(): Inquiry {
    Sent(ALL).(lastContactAt := LATE, updatedAt := LATE)
  }

  lemma SelectedIncomplete()
    ensures Reachable(Plain(Sent(NOTHING), LATE, map[1 := Closing({0}, LATE)]), TheUses())
  {
    hide Reachable, IsDmComplete;
    SentReachable(false);
    ReachableNext(Plain(Sent(NOTHING), 0, map[]), TickStep(LATE), TheUses(), Plain(Sent(NOTHING), LATE, map[]));
    assert StaleIds(map[0 := Sent(NOTHING)], LATE) == {0};
    ReachableNext(Plain(Sent(NOTHING), LATE, map[]), SelectStaleStep(1, LATE), TheUses(),
                  Plain(Sent(NOTHING), LATE, map[1 := Closing({0}, LATE)]));
  }

  lemma CompletedLate()
    ensures Reachable(Plain(Completed(), LATE, map[1 := Closing({0}, LATE)]), TheUses())
  {
    hide Reachable;
    var all, bulk := Documents(false, true, false), Closing({0}, LATE);
    SelectedIncomplete();
    AnswersComplete();
    hide IsDmComplete;
    assert MergeAnswers(ANSWERS, NO_ANSWERS) == ANSWERS;
    var read := Plain(Sent(NOTHING), LATE, map[1 := bulk, 2 := Updating(0, Sent(NOTHING), all, LATE)]);
    ReachableNext(Plain(Sent(NOTHING), LATE, map[1 := bulk]), ReadUpdateStep(2, 0, all), TheUses(), read);
    ReachableNext(read, WriteUpdateStep(2, LATE), TheUses(), Plain(Completed(), LATE, map[1 := bulk]));
  }

  // ---------------------------------------------------------------- two promotions at once

  // both have read the inquiry, under the given keys and with the dates 1 and 2
  lemma TwoBegun(key: Key)
    ensures Reachable(Plain(Sent(ALL), 0, map[1 := Promotion(0, 1, HasRead), 2 := Promotion(key, 2, HasRead)]),
                      TheUses())
  {
    hide Reachable;
    SentReachable(true);
    hide IsDmComplete;
    var one := Plain(Sent(ALL), 0, map[1 := Promotion(0, 1, HasRead)]);
    ReachableNext(Plain(Sent(ALL), 0, map[]), BeginStep(1, Input(0, 1)), TheUses(), one);
    ReachableNext(one, BeginStep(2, Input(key, 2)), TheUses(),
                  Plain(Sent(ALL), 0, map[1 := Promotion(0, 1, HasRead), 2 := Promotion(key, 2, HasRead)]));
  }

  lemma OneConfirmed()
    ensures Reachable(OneSeeker(Sent(ALL), NewSeeker(1), 1, 0,
                                map[1 := Promotion(0, 1, HasConfirmed(0)), 2 := Promotion(0, 2, HasConfirmed(0))]),
                      TheUses())
  {
    hide Reachable, IsDmComplete;
    TwoBegun(0);
    var begun := Plain(Sent(ALL), 0, map[1 := Promotion(0, 1, HasRead), 2 := Promotion(0, 2, HasRead)]);
    var one := OneSeeker(Sent(ALL), NewSeeker(1), 1, 0,
                         map[1 := Promotion(0, 1, HasConfirmed(0)), 2 := Promotion(0, 2, HasRead)]);
    FirstConfirms(map[2 := Promotion(0, 2, HasRead)], begun, one);
    var both := OneSeeker(Sent(ALL), NewSeeker(1), 1, 0,
                          map[1 := Promotion(0, 1, HasConfirmed(0)), 2 := Promotion(0, 2, HasConfirmed(0))]);
    ReachableNext(one, LookStep(2), TheUses(), both);
  }

  // the first of two promotions confirms before the other does anything
  lemma FirstConfirms(other: map<CallId, Call>, begun: State, one: State)
    requires 1 !in other && begun == Plain(Sent(ALL), 0, other[1 := Promotion(0, 1, HasRead)])
    requires one == OneSeeker(Sent(ALL), NewSeeker(1), 1, 0, other[1 := Promotion(0, 1, HasConfirmed(0))])
    requires Reachable(begun, TheUses())
    ensures Reachable(one, TheUses())
  {
    hide Reachable;
    ConfirmedReachable(other);
  }

  /** Two promotions under one key, the second of which looks when the first has confirmed: one job seeker, and if they
      were called with different dates and the second commits in turn but the last ones crosswise, inquiry and seeker
      disagree on the date for good. */
  lemma OneKeyTwoDates() returns (final: State)
    ensures Reachable(final, TheUses()) && final.calls == map[] && final.db.seekers.Keys == {0}
    ensures 0 in final.db.inquiries && final.db.inquiries[0].status == Promoted
    ensures final.db.inquiries[0].promotedJobSeekerId == Some(0)
    ensures final.db.inquiries[0].setReceivedAt == Some(1) && final.db.seekers[0].acceptedAt == 2
  {
    hide Reachable, IsDmComplete;
    OneConfirmed();
    var both := OneSeeker(Sent(ALL), NewSeeker(1), 1, 0,
                          map[1 := Promotion(0, 1, HasConfirmed(0)), 2 := Promotion(0, 2, HasConfirmed(0))]);
    var first := OneSeeker(Sent(ALL), OwnedSeeker(1), 1, 0,
                           map[1 := Promotion(0, 1, HasWritten(0)), 2 := Promotion(0, 2, HasConfirmed(0))]);
    ReachableNext(both, WriteSeekerStep(1), TheUses(), first);
    final := CrosswiseEnd(first);
  }

  lemma CrosswiseEnd(first: State) returns (final: State)
    requires first == OneSeeker(Sent(ALL), OwnedSeeker(1), 1, 0,
                                map[1 := Promotion(0, 1, HasWritten(0)), 2 := Promotion(0, 2, HasConfirmed(0))])
    requires Reachable(first, TheUses())
    ensures Reachable(final, TheUses())
    ensures final == OneSeeker(PromotedRow(Sent(ALL), 0, 1, 0), OwnedSeeker(2), 1, 0, map[])
  {
    hide Reachable, IsDmComplete, AfterReadUpdate, AfterWriteUpdate, AfterBegin, AfterConfirmStep,
         AfterCloseOne, StaleIds;
    var second := OneSeeker(Sent(ALL), OwnedSeeker(2), 1, 0,
                            map[1 := Promotion(0, 1, HasWritten(0)), 2 := Promotion(0, 2, HasWritten(0))]);
    ReachableNext(first, WriteSeekerStep(2), TheUses(), second);
    final := CrosswisePromoted(second);
  }

  lemma CrosswisePromoted(second: State) returns (final: State)
    requires second == OneSeeker(Sent(ALL), OwnedSeeker(2), 1, 0,
                                 map[1 := Promotion(0, 1, HasWritten(0)), 2 := Promotion(0, 2, HasWritten(0))])
    requires Reachable(second, TheUses())
    ensures Reachable(final, TheUses())
    ensures final == OneSeeker(PromotedRow(Sent(ALL), 0, 1, 0), OwnedSeeker(2), 1, 0, map[])
  {
    hide Reachable, IsDmComplete, AfterReadUpdate, AfterWriteUpdate, AfterBegin, AfterConfirmStep,
         AfterCloseOne, StaleIds;
    var promoted := OneSeeker(PromotedRow(Sent(ALL), 0, 2, 0), OwnedSeeker(2), 1, 0,
                              map[1 := Promotion(0, 1, HasWritten(0))]);
    ReachableNext(second, WriteInquiryStep(2), TheUses(), promoted);
    final := OneSeeker(PromotedRow(Sent(ALL), 0, 1, 0), OwnedSeeker(2), 1, 0, map[]);
    ReachableNext(promoted, WriteInquiryStep(1), TheUses(), final);
  }

  // after the confirms of seeker 0 under key 0 and of seeker 1 under key 1
  function TwoSeekers(row: Inquiry, zero: Seeker, one: Seeker, calls: map<CallId, Call>): State {
    State(Db(map[0 := row], map[0 := zero, 1 := one], map[0 := OutboxRow(true, Some(0)), 1 := OutboxRow(true, Some(1))],
             [Confirmed(0, 0, 1), Confirmed(1, 0, 2)]), 0, calls, map[0 := 0, 1 := 1])
  }

  lemma TwoConfirmed()
    ensures Reachable(TwoSeekers(Sent(ALL), NewSeeker(1), NewSeeker(2),
                                 map[1 := Promotion(0, 1, HasConfirmed(0)), 2 := Promotion(1, 2, HasConfirmed(1))]),
                      TheUses())
  {
    hide Reachable, IsDmComplete;
    TwoBegun(1);
    var begun := Plain(Sent(ALL), 0, map[1 := Promotion(0, 1, HasRead), 2 := Promotion(1, 2, HasRead)]);
    var one := OneSeeker(Sent(ALL), NewSeeker(1), 1, 0,
                         map[1 := Promotion(0, 1, HasConfirmed(0)), 2 := Promotion(1, 2, HasRead)]);
    FirstConfirms(map[2 := Promotion(1, 2, HasRead)], begun, one);
    var missed := OneSeeker(Sent(ALL), NewSeeker(1), 1, 0,
                            map[1 := Promotion(0, 1, HasConfirmed(0)), 2 := Promotion(1, 2, HasMissed)]);
    ReachableNext(one, LookStep(2), TheUses(), missed);
    var both := TwoSeekers(Sent(ALL), NewSeeker(1), NewSeeker(2),
                           map[1 := Promotion(0, 1, HasConfirmed(0)), 2 := Promotion(1, 2, HasConfirmed(1))]);
    ReachableNext(missed, ConfirmStep(2, 1), TheUses(), both);
  }

  lemma OneWritten()
    requires Reachable(TwoSeekers(Sent(ALL), NewSeeker(1), NewSeeker(2),
                                  map[1 := Promotion(0, 1, HasConfirmed(0)), 2 := Promotion(1, 2, HasConfirmed(1))]),
                       TheUses())
    ensures Reachable(TwoSeekers(Sent(ALL), OwnedSeeker(1), NewSeeker(2),
                                 map[1 := Promotion(0, 1, HasWritten(0)), 2 := Promotion(1, 2, HasConfirmed(1))]),
                      TheUses())
  {
    hide Reachable, IsDmComplete, AfterReadUpdate, AfterWriteUpdate, AfterBegin, AfterConfirmStep,
         AfterCloseOne, StaleIds;
    var both := TwoSeekers(Sent(ALL), NewSeeker(1), NewSeeker(2),
                           map[1 := Promotion(0, 1, HasConfirmed(0)), 2 := Promotion(1, 2, HasConfirmed(1))]);
    var first := TwoSeekers(Sent(ALL), OwnedSeeker(1), NewSeeker(2),
                            map[1 := Promotion(0, 1, HasWritten(0)), 2 := Promotion(1, 2, HasConfirmed(1))]);
    ReachableNext(both, WriteSeekerStep(1), TheUses(), first);
  }

  /** Two promotions under two keys: two job seekers carry the one inquiry, which names the seeker of whichever
      promotion committed last. */
  lemma TwoKeysTwoSeekers() returns (final: State)
    ensures Reachable(final, TheUses()) && final.calls == map[] && final.db.seekers.Keys == {0, 1}
    ensures final.db.seekers[0].inquiryId == Some(0) && final.db.seekers[1].inquiryId == Some(0)
    ensures 0 in final.db.inquiries && final.db.inquiries[0].status == Promoted
    ensures final.db.inquiries[0].promotedJobSeekerId == Some(1)
  {
    hide Reachable, IsDmComplete;
    TwoConfirmed();
    OneWritten();
    final := BothEnd(TwoSeekers(Sent(ALL), OwnedSeeker(1), NewSeeker(2),
                                map[1 := Promotion(0, 1, HasWritten(0)), 2 := Promotion(1, 2, HasConfirmed(1))]));
  }

  lemma BothEnd(first: State) returns (final: State)
    requires first == TwoSeekers(Sent(ALL), OwnedSeeker(1), NewSeeker(2),
                                 map[1 := Promotion(0, 1, HasWritten(0)), 2 := Promotion(1, 2, HasConfirmed(1))])
    requires Reachable(first, TheUses())
    ensures Reachable(final, TheUses())
    ensures final == TwoSeekers(PromotedRow(Sent(ALL), 1, 2, 0), OwnedSeeker(1), OwnedSeeker(2), map[])
  {
    hide Reachable, IsDmComplete;
    var second := TwoSeekers(Sent(ALL), OwnedSeeker(1), OwnedSeeker(2),
                             map[1 := Promotion(0, 1, HasWritten(0)), 2 := Promotion(1, 2, HasWritten(1))]);
    ReachableNext(first, WriteSeekerStep(2), TheUses(), second);
    final := BothPromoted(second);
  }

  lemma BothPromoted(second: State) returns (final: State)
    requires second == TwoSeekers(Sent(ALL), OwnedSeeker(1), OwnedSeeker(2),
                                  map[1 := Promotion(0, 1, HasWritten(0)), 2 := Promotion(1, 2, HasWritten(1))])
    requires Reachable(second, TheUses())
    ensures Reachable(final, TheUses())
    ensures final == TwoSeekers(PromotedRow(Sent(ALL), 1, 2, 0), OwnedSeeker(1), OwnedSeeker(2), map[])
  {
    hide Reachable, IsDmComplete;
    var promoted := TwoSeekers(PromotedRow(Sent(ALL), 0, 1, 0), OwnedSeeker(1), OwnedSeeker(2),
                               map[2 := Promotion(1, 2, HasWritten(1))]);
    ReachableNext(second, WriteInquiryStep(1), TheUses(), promoted);
    final := TwoSeekers(PromotedRow(Sent(ALL), 1, 2, 0), OwnedSeeker(1), OwnedSeeker(2), map[]);
    ReachableNext(promoted, WriteInquiryStep(2), TheUses(), final);
  }

  // ---------------------------------------------------------------- two confirms at once

  // both promotions, under key 0, have looked before either confirms
  lemma BothMissed()
    ensures Reachable(Plain(Sent(ALL), 0, map[1 := Promotion(0, 1, HasMissed), 2 := Promotion(0, 2, HasMissed)]),
                      TheUses())
  {
    hide Reachable;
    TwoBegun(0);
    var one := Plain(Sent(ALL), 0, map[1 := Promotion(0, 1, HasMissed), 2 := Promotion(0, 2, HasRead)]);
    ReachableNext(Plain(Sent(ALL), 0, map[1 := Promotion(0, 1, HasRead), 2 := Promotion(0, 2, HasRead)]),
                  LookStep(1), TheUses(), one);
    ReachableNext(one, LookStep(2), TheUses(),
                  Plain(Sent(ALL), 0, map[1 := Promotion(0, 1, HasMissed), 2 := Promotion(0, 2, HasMissed)]));
  }

  /** Two promotions under one key whose key checks both come before either commits: two job seekers, each with its
      event, and only the first on the row of the key. */
  lemma OneKeyTwoSeekers() returns (twice: State)
    ensures Reachable(twice, TheUses()) && twice.db.seekers.Keys == {0, 1} && |twice.db.audit| == 2
    ensures twice.keyOf == map[0 := 0, 1 := 0] && twice.db.outbox == map[0 := OutboxRow(true, Some(0))]
    ensures !HasOneSeeker(twice, 0)
  {
    hide Reachable;
    BothMissed();
    var once := OneSeeker(Sent(ALL), NewSeeker(1), 1, 0,
                          map[1 := Promotion(0, 1, HasConfirmed(0)), 2 := Promotion(0, 2, HasMissed)]);
    ReachableNext(Plain(Sent(ALL), 0, map[1 := Promotion(0, 1, HasMissed), 2 := Promotion(0, 2, HasMissed)]),
                  ConfirmStep(1, 0), TheUses(), once);
    twice := State(Db(map[0 := Sent(ALL)], map[0 := NewSeeker(1), 1 := NewSeeker(2)],
                      map[0 := OutboxRow(true, Some(0))], [Confirmed(0, 0, 1), Confirmed(1, 0, 2)]), 0,
                   map[1 := Promotion(0, 1, HasConfirmed(0)), 2 := Promotion(0, 2, HasConfirmed(1))],
                   map[0 := 0, 1 := 0]);
    ReachableNext(once, ConfirmStep(2, 1), TheUses(), twice);
    assert 1 in twice.keyOf && twice.keyOf[1] == 0;
  }
}
