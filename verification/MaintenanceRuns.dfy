/** Reminders over whole runs: any number of jobs a day, which stop between any two rows, overlap, run past midnight
    and fail anywhere, for any deadlines. */
module MaintenanceRuns {
  import opened Tables
  import opened Calendar
  import opened Maintenance

  type JobId = nat

  // a job with the day on which it began and the rows of the present tenant, as selected, that it has not handled
  datatype Job = Job(day: Date, left: Deadlines)

  datatype State = State(deadlines: Deadlines, outbox: Outbox, today: Date, jobs: map<JobId, Job>)

  // an error ends a tenant's turn: the job selects the next tenant with rows left, or ends
  datatype Step =
    | BeginStep(j: JobId)
    | SelectStep(j: JobId, tenant: Tenant)
    | HandleStep(j: JobId, id: Uuid)
    | EndStep(j: JobId)
    | AddStep(id: Uuid, tenant: Tenant, dueDate: Date)
    | FulfilStep(id: Uuid)
    | OtherStep(key: string)
    | DayStep(later: Date)

  function UpcomingOf(deadlines: Deadlines, tenant: Tenant, day: Date): Deadlines {
    map id | id in deadlines && deadlines[id].tenant == tenant && Upcoming(deadlines[id], day) :: deadlines[id]
  }

  // one round of the loop
  function Handle(outbox: Outbox, job: Job, id: Uuid): Outbox {
    if Owes(job.left, job.day, id)
    then InsertIfAbsent(outbox, KeyFor(job.left, job.day, id), EntryFor(job.left, job.day, id))
    else outbox
  }

  // other producers do not use the prefix of the reminder keys
  ghost predicate Next(st: State, step: Step, later: State) {
    match step
    case BeginStep(j) => j !in st.jobs && later == st.(jobs := st.jobs[j := Job(st.today, map[])])
    case SelectStep(j, tenant) =>
      j in st.jobs
        && later == st.(jobs := st.jobs[j := Job(st.jobs[j].day, UpcomingOf(st.deadlines, tenant, st.jobs[j].day))])
    case HandleStep(j, id) =>
      j in st.jobs && id in st.jobs[j].left
        && later == st.(outbox := Handle(st.outbox, st.jobs[j], id),
                        jobs := st.jobs[j := Job(st.jobs[j].day, st.jobs[j].left - {id})])
    case EndStep(j) => later == st.(jobs := st.jobs - {j})
    case AddStep(id, tenant, dueDate) =>
      id !in st.deadlines && Valid(dueDate)
        && later == st.(deadlines := st.deadlines[id := Deadline(tenant, dueDate, false)])
    case FulfilStep(id) =>
      id in st.deadlines && later == st.(deadlines := st.deadlines[id := st.deadlines[id].(fulfilled := true)])
    case OtherStep(key) =>
      !(PREFIX <= key) && later == st.(outbox := InsertIfAbsent(st.outbox, key, OtherEvent))
    case DayStep(day) =>
      Valid(day) && DayNumber(st.today) <= DayNumber(day) && later == st.(today := day)
  }

  ghost predicate IsRun(states: seq<State>, steps: seq<Step>) {
    && |states| == |steps| + 1
    && states[0].deadlines == map[] && states[0].outbox == map[] && states[0].jobs == map[] && Valid(states[0].today)
    && forall i, j | 0 <= i < |steps| && j == i + 1 :: Next(states[i], steps[i], states[j])
  }

  // ---------------------------------------------------------------- what every reachable state keeps

  function DayBefore(dueDate: Date, n: int): Date {
    FromDayNumber(DayNumber(dueDate) - n)
  }

  // the key of the row that reminds of the deadline n days ahead
  function ReminderKey(deadline: Deadline, id: Uuid, n: nat): string {
    Key(deadline.tenant, id, n, DayBefore(deadline.dueDate, n))
  }

  predicate RowRight(deadlines: Deadlines, key: string, entry: Entry) {
    match entry
    case OtherEvent => !(PREFIX <= key)
    case Reminder(id, dueDate, n) =>
      && id in deadlines && dueDate == deadlines[id].dueDate && n in DEADLINE_REMINDER_DAYS
      && key == ReminderKey(deadlines[id], id, n)
  }

  predicate RowsRight(deadlines: Deadlines, outbox: Outbox) {
    forall key | key in outbox :: RowRight(deadlines, key, outbox[key])
  }

  predicate DatesValid(deadlines: Deadlines, today: Date) {
    Valid(today) && forall id | id in deadlines :: Valid(deadlines[id].dueDate)
  }

  predicate SameDeadline(a: Deadline, b: Deadline) {
    a.tenant == b.tenant && a.dueDate == b.dueDate
  }

  // but for being fulfilled since, the rows a job has left are as it selected them
  predicate JobRight(deadlines: Deadlines, job: Job) {
    Valid(job.day)
    && forall id | id in job.left ::
         id in deadlines && SameDeadline(job.left[id], deadlines[id]) && Upcoming(job.left[id], job.day)
  }

  predicate JobsRight(deadlines: Deadlines, jobs: map<JobId, Job>) {
    forall j | j in jobs :: JobRight(deadlines, jobs[j])
  }

  predicate Inv(st: State) {
    DatesValid(st.deadlines, st.today) && RowsRight(st.deadlines, st.outbox) && JobsRight(st.deadlines, st.jobs)
  }

  // a reminder owed today is the one for as many days ahead
  lemma OwedKey(deadlines: Deadlines, today: Date, id: Uuid)
    requires Owes(deadlines, today, id) && Valid(today)
    ensures id in deadlines && DaysBetween(today, deadlines[id].dueDate) in DEADLINE_REMINDER_DAYS
    ensures KeyFor(deadlines, today, id) == ReminderKey(deadlines[id], id, DaysBetween(today, deadlines[id].dueDate))
  {
    hide Upcoming, DayNumber, Valid, Key;
    var n := DaysBetween(today, deadlines[id].dueDate);
    DaysBetweenIsDifference(today, deadlines[id].dueDate);
    DayNumberOrders(today, DayBefore(deadlines[id].dueDate, n));
  }

  lemma PrefixOfKey(tenant: Tenant, id: Uuid, n: nat, today: Date)
    ensures PREFIX <= Key(tenant, id, n, today)
  {
    hide Decimal, IsoText;
    var rest := tenant + ":" + id + ":" + Decimal(n) + ":" + IsoText(today);
    assert Key(tenant, id, n, today) == PREFIX + rest;
  }

  lemma ReminderKeyInjective(deadline: Deadline, id: Uuid, n: nat, deadline': Deadline, id': Uuid, n': nat)
    requires n in DEADLINE_REMINDER_DAYS && n' in DEADLINE_REMINDER_DAYS
    requires ReminderKey(deadline, id, n) == ReminderKey(deadline', id', n')
    ensures id == id' && n == n'
  {
    hide DayBefore, Key;
    KeyInjective(deadline.tenant, id, n, DayBefore(deadline.dueDate, n),
                 deadline'.tenant, id', n', DayBefore(deadline'.dueDate, n'));
  }

  // a row under the key of a reminder is that reminder
  lemma RowUnderKey(deadlines: Deadlines, outbox: Outbox, deadline: Deadline, id: Uuid, n: nat)
    requires RowsRight(deadlines, outbox) && n in DEADLINE_REMINDER_DAYS && ReminderKey(deadline, id, n) in outbox
    ensures id in deadlines && outbox[ReminderKey(deadline, id, n)] == Reminder(id, deadlines[id].dueDate, n)
  {
    hide ReminderKey, RowsRight;
    var key := ReminderKey(deadline, id, n);
    var entry := outbox[key];
    RowOf(deadlines, outbox, key);
    ReminderKeyPrefix(deadline, id, n);
    if entry.Reminder? {
      ReminderKeyInjective(deadline, id, n, deadlines[entry.aggregateId], entry.aggregateId, entry.daysBeforeDue);
    }
  }

  lemma RowOf(deadlines: Deadlines, outbox: Outbox, key: string)
    requires RowsRight(deadlines, outbox) && key in outbox
    ensures RowRight(deadlines, key, outbox[key])
  {
  }

  lemma ReminderKeyPrefix(deadline: Deadline, id: Uuid, n: nat)
    ensures PREFIX <= ReminderKey(deadline, id, n)
  {
    hide DayBefore, Key;
    PrefixOfKey(deadline.tenant, id, n, DayBefore(deadline.dueDate, n));
  }

  lemma RowsStayRight(deadlines: Deadlines, later: Deadlines, outbox: Outbox)
    requires RowsRight(deadlines, outbox)
    requires forall id | id in deadlines :: id in later && SameDeadline(deadlines[id], later[id])
    ensures RowsRight(later, outbox)
  {
    forall key | key in outbox ensures RowRight(later, key, outbox[key]) {
      assert RowRight(deadlines, key, outbox[key]);
      RowStaysRight(deadlines, later, key, outbox[key]);
    }
  }

  lemma RowStaysRight(deadlines: Deadlines, later: Deadlines, key: string, entry: Entry)
    requires RowRight(deadlines, key, entry)
    requires forall id | id in deadlines :: id in later && SameDeadline(deadlines[id], later[id])
    ensures RowRight(later, key, entry)
  {
    hide DayBefore, Key;
    if entry.Reminder? {
      assert SameDeadline(deadlines[entry.aggregateId], later[entry.aggregateId]);
    }
  }

  // a row is right by the deadlines as selected if and only if it is by the present ones
  lemma SelectedRowRight(left: Deadlines, deadlines: Deadlines, key: string, entry: Entry)
    requires RowRight(left, key, entry) && entry.Reminder?
    requires entry.aggregateId in deadlines && SameDeadline(left[entry.aggregateId], deadlines[entry.aggregateId])
    ensures RowRight(deadlines, key, entry)
  {
    hide DayBefore, Key;
  }

  lemma EntryRight(deadlines: Deadlines, today: Date, id: Uuid)
    requires Owes(deadlines, today, id) && Valid(today)
    ensures RowRight(deadlines, KeyFor(deadlines, today, id), EntryFor(deadlines, today, id))
  {
    hide Upcoming, KeyFor, ReminderKey, DaysBetween;
    OwedKey(deadlines, today, id);
  }

  lemma HandleKeepsRows(deadlines: Deadlines, outbox: Outbox, job: Job, id: Uuid)
    requires RowsRight(deadlines, outbox) && JobRight(deadlines, job) && id in job.left
    ensures RowsRight(deadlines, Handle(outbox, job, id))
  {
    hide RowRight, KeyFor, Upcoming, Valid, DayNumber, DaysBetween;
    if Owes(job.left, job.day, id) {
      EntryRight(job.left, job.day, id);
      SelectedRowRight(job.left, deadlines, KeyFor(job.left, job.day, id), EntryFor(job.left, job.day, id));
    }
  }

  lemma JobsStayRight(deadlines: Deadlines, later: Deadlines, jobs: map<JobId, Job>)
    requires JobsRight(deadlines, jobs)
    requires forall id | id in deadlines :: id in later && SameDeadline(deadlines[id], later[id])
    ensures JobsRight(later, jobs)
  {
    hide Valid, Upcoming;
    forall j | j in jobs ensures JobRight(later, jobs[j]) {
      assert JobRight(deadlines, jobs[j]);
    }
  }

  lemma StepKeepsInv(st: State, step: Step, later: State)
    requires Inv(st) && Next(st, step, later)
    ensures Inv(later)
  {
    hide Valid, DayNumber, Upcoming, RowRight, Handle;
    match step
    case HandleStep(j, id) =>
      assert JobRight(st.deadlines, st.jobs[j]);
      HandleKeepsRows(st.deadlines, st.outbox, st.jobs[j], id);
    case SelectStep(j, _) => assert JobRight(st.deadlines, st.jobs[j]);
    case AddStep(_, _, _) =>
      RowsStayRight(st.deadlines, later.deadlines, st.outbox);
      JobsStayRight(st.deadlines, later.deadlines, st.jobs);
    case FulfilStep(_) =>
      RowsStayRight(st.deadlines, later.deadlines, st.outbox);
      JobsStayRight(st.deadlines, later.deadlines, st.jobs);
    case OtherStep(key) => OtherRowRight(st.deadlines, key);
    case _ =>
  }

  lemma OtherRowRight(deadlines: Deadlines, key: string)
    requires !(PREFIX <= key)
    ensures RowRight(deadlines, key, OtherEvent)
  {
  }

  lemma {:induction false} RunKeepsInv(states: seq<State>, steps: seq<Step>, i: nat)
    requires IsRun(states, steps) && i < |states|
    ensures Inv(states[i])
  {
    if i > 0 {
      hide Next, Inv;
      RunKeepsInv(states, steps, i - 1);
      StepKeepsInv(states[i - 1], steps[i - 1], states[i]);
    }
  }

  // ---------------------------------------------------------------- main results

  /** One round of the loop on an upcoming deadline is what the method of the job says of it. */
  lemma HandleReminds(st: State, j: JobId, id: Uuid)
    requires j in st.jobs && id in st.jobs[j].left
    ensures Reminded(st.outbox, Handle(st.outbox, st.jobs[j], id), st.jobs[j].left, st.jobs[j].day, {id})
  {
    hide Owes, KeyFor, EntryFor;
  }

  // the step is the round of a job, begun on the day n days before it was due, for the deadline
  predicate Fired(st: State, step: Step, id: Uuid, n: nat) {
    && step.HandleStep? && step.id == id && step.j in st.jobs
    && Owes(st.jobs[step.j].left, st.jobs[step.j].day, id)
    && DaysBetween(st.jobs[step.j].day, st.jobs[step.j].left[id].dueDate) == n
  }

  predicate HasReminder(st: State, deadline: Deadline, id: Uuid, n: nat) {
    ReminderKey(deadline, id, n) in st.outbox
  }

  lemma JobOf(st: State, j: JobId)
    requires Inv(st) && j in st.jobs
    ensures JobRight(st.deadlines, st.jobs[j])
  {
  }

  lemma HandleAdds(st: State, step: Step, later: State, id: Uuid, n: nat)
    requires Inv(st) && step.HandleStep? && Next(st, step, later) && id in st.deadlines && n in DEADLINE_REMINDER_DAYS
    ensures HasReminder(later, st.deadlines[id], id, n)
            <==> HasReminder(st, st.deadlines[id], id, n) || Fired(st, step, id, n)
  {
    hide ReminderKey, RowsRight, KeyFor, EntryFor, Owes, DaysBetween, Upcoming, Valid;
    var job := st.jobs[step.j];
    JobOf(st, step.j);
    if Owes(job.left, job.day, step.id) {
      OwedKey(job.left, job.day, step.id);
      var own := DaysBetween(job.day, job.left[step.id].dueDate);
      SameReminderKey(job.left[step.id], st.deadlines[step.id], step.id, own);
      if KeyFor(job.left, job.day, step.id) == ReminderKey(st.deadlines[id], id, n) {
        ReminderKeyInjective(st.deadlines[id], id, n, st.deadlines[step.id], step.id, own);
      }
    }
  }

  // no other step adds a reminder
  lemma OthersAddNone(st: State, step: Step, later: State, deadline: Deadline, id: Uuid, n: nat)
    requires !step.HandleStep? && Next(st, step, later)
    ensures HasReminder(later, deadline, id, n) <==> HasReminder(st, deadline, id, n)
  {
    hide ReminderKey, Valid, DayNumber;
    ReminderKeyPrefix(deadline, id, n);
  }

  lemma DeadlineKept(st: State, step: Step, later: State, id: Uuid)
    requires Next(st, step, later) && id in st.deadlines
    ensures id in later.deadlines && SameDeadline(st.deadlines[id], later.deadlines[id])
    ensures !later.deadlines[id].fulfilled ==> !st.deadlines[id].fulfilled
  {
    hide Valid, DayNumber, Handle, Upcoming;
  }

  lemma SameReminderKey(a: Deadline, b: Deadline, id: Uuid, n: nat)
    requires SameDeadline(a, b)
    ensures ReminderKey(a, id, n) == ReminderKey(b, id, n)
  {
    hide DayBefore, Key;
  }

  ghost predicate FiredBefore(states: seq<State>, steps: seq<Step>, m: nat, id: Uuid, n: nat)
    requires m <= |steps| <= |states|
  {
    exists k :: 0 <= k < m && Fired(states[k], steps[k], id, n)
  }

  lemma FiredNext(states: seq<State>, steps: seq<Step>, m: nat, id: Uuid, n: nat)
    requires m < |steps| <= |states|
    ensures FiredBefore(states, steps, m + 1, id, n)
            <==> FiredBefore(states, steps, m, id, n) || Fired(states[m], steps[m], id, n)
  {
    hide Fired;
  }

  /** The outbox holds the reminder of a deadline n days ahead exactly when a job that began on the day n days before it
      was due has handled the deadline. */
  lemma {:induction false} ReminderIffFired(states: seq<State>, steps: seq<Step>, m: nat, id: Uuid, n: nat)
    requires IsRun(states, steps) && m < |states| && id in states[m].deadlines && n in DEADLINE_REMINDER_DAYS
    ensures HasReminder(states[m], states[m].deadlines[id], id, n) <==> FiredBefore(states, steps, m, id, n)
    decreases m
  {
    hide Fired, Next, Inv, ReminderKey, HasReminder, SameDeadline;
    if m > 0 {
      var p := m - 1;
      FiredNext(states, steps, p, id, n);
      RunKeepsInv(states, steps, p);
      assert Next(states[p], steps[p], states[m]);
      if id in states[p].deadlines {
        ReminderIffFired(states, steps, p, id, n);
        ReminderStep(states[p], steps[p], states[m], id, n);
      } else {
        NoneBefore(states, steps, p, id, n);
        NoneWhenAdded(states[p], steps[p], states[m], id, n);
      }
    }
  }

  lemma ReminderStep(st: State, step: Step, later: State, id: Uuid, n: nat)
    requires Inv(st) && Next(st, step, later) && id in st.deadlines && n in DEADLINE_REMINDER_DAYS
    ensures id in later.deadlines
    ensures HasReminder(later, later.deadlines[id], id, n)
            <==> HasReminder(st, st.deadlines[id], id, n) || Fired(st, step, id, n)
  {
    hide Next, Inv, ReminderKey, Owes;
    DeadlineKept(st, step, later, id);
    SameReminderKey(st.deadlines[id], later.deadlines[id], id, n);
    if step.HandleStep? {
      HandleAdds(st, step, later, id, n);
    } else {
      OthersAddNone(st, step, later, st.deadlines[id], id, n);
    }
  }

  // a deadline that is not there yet has no reminders
  lemma NoneWhenAdded(st: State, step: Step, later: State, id: Uuid, n: nat)
    requires Inv(st) && Next(st, step, later) && id !in st.deadlines && id in later.deadlines
             && n in DEADLINE_REMINDER_DAYS
    ensures !HasReminder(later, later.deadlines[id], id, n) && !Fired(st, step, id, n)
  {
    hide RowsRight, ReminderKey, Valid, DayNumber, Handle, Upcoming, Owes;
    assert later.outbox == st.outbox;
    if ReminderKey(later.deadlines[id], id, n) in st.outbox {
      RowUnderKey(st.deadlines, st.outbox, later.deadlines[id], id, n);
    }
  }

  lemma FiredIsThere(st: State, step: Step, id: Uuid, n: nat)
    requires Inv(st) && Fired(st, step, id, n)
    ensures id in st.deadlines
  {
    hide RowsRight, Upcoming, DaysBetween, Valid;
    JobOf(st, step.j);
  }

  lemma {:induction false} NoneBefore(states: seq<State>, steps: seq<Step>, m: nat, id: Uuid, n: nat)
    requires IsRun(states, steps) && m < |states| && id !in states[m].deadlines
    ensures !FiredBefore(states, steps, m, id, n)
    decreases m
  {
    hide Next;
    if m > 0 {
      var p := m - 1;
      assert Next(states[p], steps[p], states[m]);
      if id in states[p].deadlines {
        DeadlineKept(states[p], steps[p], states[m], id);
      } else {
        FiredNext(states, steps, p, id, n);
        NoneBefore(states, steps, p, id, n);
        RunKeepsInv(states, steps, p);
        if Fired(states[p], steps[p], id, n) {
          FiredIsThere(states[p], steps[p], id, n);
        }
      }
    }
  }

  // ---------------------------------------------------------------- what a job has selected

  lemma LeftBefore(st: State, step: Step, later: State, j: JobId, id: Uuid)
    requires Next(st, step, later) && j in later.jobs && id in later.jobs[j].left
    ensures j in st.jobs && st.jobs[j].day == later.jobs[j].day
    ensures (id in st.jobs[j].left && st.jobs[j].left[id] == later.jobs[j].left[id])
         || (step.SelectStep? && step.j == j && id in st.deadlines && later.jobs[j].left[id] == st.deadlines[id]
             && Upcoming(st.deadlines[id], st.jobs[j].day))
  {
    hide Valid, DayNumber, Handle, Upcoming;
  }

  /** What a job handles it has selected before, when it was upcoming and not fulfilled. */
  lemma {:induction false} HandledWasUpcoming(states: seq<State>, steps: seq<Step>, m: nat, j: JobId, id: Uuid)
    returns (k: nat)
    requires IsRun(states, steps) && m < |states| && j in states[m].jobs && id in states[m].jobs[j].left
    ensures k < m && steps[k].SelectStep? && steps[k].j == j && j in states[k].jobs
    ensures states[k].jobs[j].day == states[m].jobs[j].day && id in states[k].deadlines
    ensures states[m].jobs[j].left[id] == states[k].deadlines[id]
    ensures !states[k].deadlines[id].fulfilled && Upcoming(states[k].deadlines[id], states[k].jobs[j].day)
    decreases m
  {
    hide Next, Upcoming;
    var p := m - 1;
    assert Next(states[p], steps[p], states[m]);
    LeftBefore(states[p], steps[p], states[m], j, id);
    if id in states[p].jobs[j].left && states[p].jobs[j].left[id] == states[m].jobs[j].left[id] {
      k := HandledWasUpcoming(states, steps, p, j, id);
    } else {
      k := p;
      NotFulfilled(states[p].deadlines[id], states[p].jobs[j].day);
    }
  }

  lemma NotFulfilled(deadline: Deadline, day: Date)
    requires Upcoming(deadline, day)
    ensures !deadline.fulfilled
  {
  }

  // at step k a job of this day selects the tenant's rows, and by state l it has handled them all
  predicate RanThrough(states: seq<State>, steps: seq<Step>, k: nat, l: nat, tenant: Tenant, day: int) {
    && k < l < |states| && l <= |steps|
    && steps[k].SelectStep? && steps[k].tenant == tenant && steps[k].j in states[k].jobs
    && DayNumber(states[k].jobs[steps[k].j].day) == day
    && (forall i | k < i < l :: !Interrupts(steps[i], steps[k].j))
    && steps[k].j in states[l].jobs && states[l].jobs[steps[k].j].left == map[]
  }

  ghost predicate RunsThrough(states: seq<State>, steps: seq<Step>, i: nat, m: nat, tenant: Tenant, day: int) {
    exists k: nat, l: nat :: i <= k && l <= m && RanThrough(states, steps, k, l, tenant, day)
  }

  // the step ends the tenant's turn of the job
  predicate Interrupts(step: Step, j: JobId) {
    (step.SelectStep? || step.EndStep? || step.BeginStep?) && step.j == j
  }

  lemma LeftAfter(st: State, step: Step, later: State, j: JobId, id: Uuid)
    requires Next(st, step, later) && j in st.jobs && id in st.jobs[j].left && !Interrupts(step, j)
    ensures j in later.jobs && later.jobs[j].day == st.jobs[j].day
    ensures step == HandleStep(j, id) || (id in later.jobs[j].left && later.jobs[j].left[id] == st.jobs[j].left[id])
  {
    hide Valid, DayNumber, Handle, Upcoming;
  }

  // what a job has selected and has not left any more, it has handled
  lemma {:induction false} HandledSince(states: seq<State>, steps: seq<Step>, k: nat, l: nat, j: JobId, id: Uuid)
    returns (h: nat)
    requires IsRun(states, steps) && k <= l < |states| && j in states[k].jobs && id in states[k].jobs[j].left
    requires forall i | k <= i < l :: !Interrupts(steps[i], j)
    requires j in states[l].jobs && id !in states[l].jobs[j].left
    ensures k <= h < l && steps[h] == HandleStep(j, id) && j in states[h].jobs && id in states[h].jobs[j].left
    ensures states[h].jobs[j].day == states[k].jobs[j].day && states[h].jobs[j].left[id] == states[k].jobs[j].left[id]
    decreases l - k
  {
    hide Next, Interrupts;
    assert Next(states[k], steps[k], states[k + 1]);
    LeftAfter(states[k], steps[k], states[k + 1], j, id);
    if steps[k] == HandleStep(j, id) {
      h := k;
    } else {
      h := HandledSince(states, steps, k + 1, l, j, id);
    }
  }

  function RemindersOf(outbox: Outbox, id: Uuid): set<string> {
    set key | key in outbox && outbox[key].Reminder? && outbox[key].aggregateId == id
  }

  lemma {:induction false} DeadlineKeptSince(states: seq<State>, steps: seq<Step>, k: nat, m: nat, id: Uuid)
    requires IsRun(states, steps) && k <= m < |states| && id in states[k].deadlines
    ensures id in states[m].deadlines && SameDeadline(states[k].deadlines[id], states[m].deadlines[id])
    ensures !states[m].deadlines[id].fulfilled ==> !states[k].deadlines[id].fulfilled
    decreases m - k
  {
    hide Next;
    if k < m {
      DeadlineKeptSince(states, steps, k, m - 1, id);
      assert Next(states[m - 1], steps[m - 1], states[m]);
      DeadlineKept(states[m - 1], steps[m - 1], states[m], id);
    }
  }

  // a deadline that is there and unfulfilled is among the rows selected n days ahead
  lemma SelectedAhead(st: State, step: Step, later: State, id: Uuid, n: nat)
    requires Inv(st) && Next(st, step, later) && id in st.deadlines && !st.deadlines[id].fulfilled
    requires n in DEADLINE_REMINDER_DAYS && step.SelectStep? && step.tenant == st.deadlines[id].tenant
    requires DayNumber(st.jobs[step.j].day) == DayNumber(st.deadlines[id].dueDate) - n
    ensures step.j in later.jobs && id in later.jobs[step.j].left && later.jobs[step.j].left[id] == st.deadlines[id]
    ensures later.jobs[step.j].day == st.jobs[step.j].day
    ensures Upcoming(st.deadlines[id], st.jobs[step.j].day)
    ensures DaysBetween(st.jobs[step.j].day, st.deadlines[id].dueDate) == n
  {
    hide RowsRight, JobsRight;
    DaysBetweenIsDifference(st.jobs[step.j].day, st.deadlines[id].dueDate);
    ThirtyDaysOn(st.jobs[step.j].day);
    hide DayNumber, AddDays, DaysBetween;
    assert Upcoming(st.deadlines[id], st.jobs[step.j].day);
  }

  // a job that has run through the tenant n days ahead has fired for the deadline
  lemma RunFires(states: seq<State>, steps: seq<Step>, k: nat, l: nat, id: Uuid, n: nat) returns (h: nat)
    requires IsRun(states, steps) && k < |states| && id in states[k].deadlines && !states[k].deadlines[id].fulfilled
    requires n in DEADLINE_REMINDER_DAYS
    requires RanThrough(states, steps, k, l, states[k].deadlines[id].tenant,
                        DayNumber(states[k].deadlines[id].dueDate) - n)
    ensures h < l && Fired(states[h], steps[h], id, n)
  {
    hide Next, Interrupts, DayNumber, Upcoming, Inv, DaysBetween;
    var j := steps[k].j;
    RunKeepsInv(states, steps, k);
    assert Next(states[k], steps[k], states[k + 1]);
    SelectedAhead(states[k], steps[k], states[k + 1], id, n);
    h := HandledSince(states, steps, k + 1, l, j, id);
  }

  lemma ThirtyDaysOn(today: Date)
    ensures DayNumber(AddDays(today, 30)) == DayNumber(today) + 30
  {
    hide MonthStart, Valid;
  }

  lemma ThroughBounds(states: seq<State>, steps: seq<Step>, k: nat, l: nat, tenant: Tenant, day: int)
    requires RanThrough(states, steps, k, l, tenant, day)
    ensures k < l < |states|
  {
  }

  // `due` is the deadline as it is in the end
  lemma ReminderIsThere(states: seq<State>, steps: seq<Step>, i: nat, m: nat, id: Uuid, n: nat, due: Deadline)
    requires IsRun(states, steps) && i <= m < |states|
    requires id in states[i].deadlines && id in states[m].deadlines && states[m].deadlines[id] == due && !due.fulfilled
    requires n in DEADLINE_REMINDER_DAYS
    requires RunsThrough(states, steps, i, m, due.tenant, DayNumber(due.dueDate) - n)
    ensures ReminderKey(due, id, n) in states[m].outbox
            && states[m].outbox[ReminderKey(due, id, n)] == Reminder(id, due.dueDate, n)
  {
    hide RanThrough, Fired, Next, RowsRight, JobsRight, ReminderKey, DayNumber;
    var day := DayNumber(due.dueDate) - n;
    var k: nat, l: nat :| i <= k && l <= m && RanThrough(states, steps, k, l, due.tenant, day);
    ThroughBounds(states, steps, k, l, due.tenant, day);
    DeadlineKeptSince(states, steps, i, k, id);
    DeadlineKeptSince(states, steps, k, m, id);
    RunKeepsInv(states, steps, m);
    var h := RunFires(states, steps, k, l, id, n);
    assert FiredBefore(states, steps, m, id, n);
    ReminderIffFired(states, steps, m, id, n);
    RowUnderKey(states[m].deadlines, states[m].outbox, due, id, n);
  }

  function FourKeys(deadline: Deadline, id: Uuid): set<string> {
    {ReminderKey(deadline, id, 30), ReminderKey(deadline, id, 14), ReminderKey(deadline, id, 7),
     ReminderKey(deadline, id, 1)}
  }

  lemma FourKeysAreFour(deadline: Deadline, id: Uuid)
    ensures |FourKeys(deadline, id)| == 4
  {
    hide ReminderKey;
    forall n, n' | n in DEADLINE_REMINDER_DAYS && n' in DEADLINE_REMINDER_DAYS
      && ReminderKey(deadline, id, n) == ReminderKey(deadline, id, n')
      ensures n == n'
    {
      ReminderKeyInjective(deadline, id, n, deadline, id, n');
    }
  }

  lemma RemindersAreKeyed(st: State, id: Uuid)
    requires Inv(st) && id in st.deadlines
    ensures RemindersOf(st.outbox, id) <= FourKeys(st.deadlines[id], id)
  {
    hide ReminderKey;
    forall key | key in RemindersOf(st.outbox, id) ensures key in FourKeys(st.deadlines[id], id) {
      assert RowRight(st.deadlines, key, st.outbox[key]);
    }
  }

  /** A deadline that stays unfulfilled, with a job through its tenant begun on each of the days 30, 14, 7 and 1 before
      it is due, has exactly those four reminders, however many jobs run and overlap and whatever else happens. */
  lemma FourReminders(states: seq<State>, steps: seq<Step>, i: nat, m: nat, id: Uuid)
    requires IsRun(states, steps) && i <= m < |states|
    requires id in states[i].deadlines && id in states[m].deadlines && !states[m].deadlines[id].fulfilled
    requires forall n: nat | n in DEADLINE_REMINDER_DAYS ::
               RunsThrough(states, steps, i, m, states[m].deadlines[id].tenant,
                           DayNumber(states[m].deadlines[id].dueDate) - n)
    ensures RemindersOf(states[m].outbox, id) == FourKeys(states[m].deadlines[id], id)
            && |RemindersOf(states[m].outbox, id)| == 4
    ensures forall n: nat | n in DEADLINE_REMINDER_DAYS ::
              && ReminderKey(states[m].deadlines[id], id, n) in states[m].outbox
              && states[m].outbox[ReminderKey(states[m].deadlines[id], id, n)]
                == Reminder(id, states[m].deadlines[id].dueDate, n)
  {
    hide RanThrough, ReminderKey, Inv, DayNumber, IsRun;
    var due := states[m].deadlines[id];
    forall n: nat | n in DEADLINE_REMINDER_DAYS
      ensures ReminderKey(due, id, n) in states[m].outbox
              && states[m].outbox[ReminderKey(due, id, n)] == Reminder(id, due.dueDate, n)
    {
      ReminderIsThere(states, steps, i, m, id, n, due);
    }
    RunKeepsInv(states, steps, m);
    RemindersAreKeyed(states[m], id);
    FourKeysAreFour(due, id);
  }

  // ---------------------------------------------------------------- one tenant's turn with nothing in between

  ghost predicate IsPath(states: seq<State>, steps: seq<Step>) {
    |states| == |steps| + 1 && forall i, j | 0 <= i < |steps| && j == i + 1 :: Next(states[i], steps[i], states[j])
  }

  lemma PathFirst(st: State, step: Step, states: seq<State>, steps: seq<Step>)
    requires IsPath(states, steps) && Next(st, step, states[0])
    ensures IsPath([st] + states, [step] + steps)
  {
    hide Next;
  }

  lemma PathLast(states: seq<State>, steps: seq<Step>, step: Step, later: State)
    requires IsPath(states, steps) && Next(states[|steps|], step, later)
    ensures IsPath(states + [later], steps + [step])
  {
    hide Next;
  }

  // what is owed by the rows a job has left is owed by the table they were selected from
  lemma RemindedWider(before: Outbox, after: Outbox, left: Deadlines, deadlines: Deadlines, day: Date,
                      reached: set<Uuid>)
    requires Reminded(before, after, left, day, reached) && reached <= left.Keys
    requires forall id | id in left :: id in deadlines && deadlines[id] == left[id]
    ensures Reminded(before, after, deadlines, day, reached)
  {
    forall id | id in reached ensures Owes(left, day, id) <==> Owes(deadlines, day, id) {
      SameOwed(left, deadlines, day, id);
    }
    forall id | id in reached && Owes(left, day, id)
      ensures Owes(deadlines, day, id) && KeyFor(left, day, id) == KeyFor(deadlines, day, id)
      ensures EntryFor(left, day, id) == EntryFor(deadlines, day, id)
    {
      SameOwed(left, deadlines, day, id);
    }
    hide Owes, KeyFor, EntryFor;
  }

  lemma SameOwed(left: Deadlines, deadlines: Deadlines, day: Date, id: Uuid)
    requires id in left && id in deadlines && deadlines[id] == left[id]
    ensures Owes(left, day, id) <==> Owes(deadlines, day, id)
    ensures Owes(left, day, id) ==>
              KeyFor(left, day, id) == KeyFor(deadlines, day, id)
              && EntryFor(left, day, id) == EntryFor(deadlines, day, id)
  {
    hide Reminds, DaysBetween, Key;
  }

  lemma NothingLeft(st: State, j: JobId)
    requires j in st.jobs && st.jobs[j].left == map[]
    ensures IsPath([st], [])
    ensures st == st.(jobs := st.jobs[j := Job(st.jobs[j].day, map[])])
    ensures Reminded(st.outbox, st.outbox, map[], st.jobs[j].day, {})
  {
    hide Owes, KeyFor, EntryFor;
  }

  // a job can handle all that it has left
  lemma {:induction false} HandleAll(st: State, j: JobId) returns (states: seq<State>, steps: seq<Step>)
    requires j in st.jobs
    ensures IsPath(states, steps) && |states| == |steps| + 1 && states[0] == st
    ensures states[|steps|]
            == st.(outbox := states[|steps|].outbox, jobs := st.jobs[j := Job(st.jobs[j].day, map[])])
    ensures Reminded(st.outbox, states[|steps|].outbox, st.jobs[j].left, st.jobs[j].day, st.jobs[j].left.Keys)
    decreases |st.jobs[j].left|
  {
    hide Reminded, Handle, IsPath;
    var job := st.jobs[j];
    if job.left == map[] {
      states, steps := [st], [];
      NothingLeft(st, j);
      assert job.left.Keys == {};
    } else {
      var id :| id in job.left;
      var rest := job.left - {id};
      assert rest.Keys == job.left.Keys - {id};
      var next := st.(outbox := Handle(st.outbox, job, id), jobs := st.jobs[j := Job(job.day, rest)]);
      states, steps := HandleAll(next, j);
      var last := states[|steps|];
      HandleReminds(st, j, id);
      RemindedWider(next.outbox, last.outbox, rest, job.left, job.day, rest.Keys);
      RemindedTwice(st.outbox, next.outbox, last.outbox, job.left, job.day, {id}, rest.Keys);
      assert {id} + rest.Keys == job.left.Keys;
      PathFirst(st, HandleStep(j, id), states, steps);
      states, steps := [st] + states, [HandleStep(j, id)] + steps;
    }
  }

  /** A job can begin, select a tenant's rows, handle them all and end, and if nothing comes in between, it has then
      added what the method says of one tenant's turn. */
  lemma TurnInOneGo(st: State, j: JobId, tenant: Tenant) returns (states: seq<State>, steps: seq<Step>)
    requires j !in st.jobs
    ensures IsPath(states, steps) && |states| == |steps| + 1 && states[0] == st
    ensures states[|steps|] == st.(outbox := states[|steps|].outbox)
    ensures Reminded(st.outbox, states[|steps|].outbox, st.deadlines, st.today,
                     UpcomingOf(st.deadlines, tenant, st.today).Keys)
  {
    hide Reminded, Upcoming, Handle, Owes, IsPath;
    var upcoming := UpcomingOf(st.deadlines, tenant, st.today);
    var begun := st.(jobs := st.jobs[j := Job(st.today, map[])]);
    var selected := begun.(jobs := begun.jobs[j := Job(st.today, upcoming)]);
    states, steps := HandleAll(selected, j);
    var handled := states[|steps|];
    RemindedWider(st.outbox, handled.outbox, upcoming, st.deadlines, st.today, upcoming.Keys);
    var later := handled.(jobs := handled.jobs - {j});
    assert later.jobs == st.jobs;
    PathLast(states, steps, EndStep(j), later);
    states, steps := states + [later], steps + [EndStep(j)];
    PathFirst(begun, SelectStep(j, tenant), states, steps);
    states, steps := [begun] + states, [SelectStep(j, tenant)] + steps;
    PathFirst(st, BeginStep(j), states, steps);
    states, steps := [st] + states, [BeginStep(j)] + steps;
  }
}
