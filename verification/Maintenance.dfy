/** src/services/outbox-worker/daily-maintenance.ts: the reminders of approaching deadlines. */
module Maintenance {
  import opened Tables
  import opened Calendar

  type Tenant = string
  type Uuid = s: string | |s| == 36 witness "00000000-0000-0000-0000-000000000000"

  datatype Deadline = Deadline(tenant: Tenant, dueDate: Date, fulfilled: bool)

  type Deadlines = map<Uuid, Deadline>

  // the outbox by idempotency key; rows of other producers are told apart only by their keys
  datatype Entry = Reminder(aggregateId: Uuid, dueDate: Date, daysBeforeDue: int) | OtherEvent

  type Outbox = map<string, Entry>

  const DEADLINE_REMINDER_DAYS := {30, 14, 7, 1}
  const PREFIX := "t2p.deadline_approaching:"

  // ---------------------------------------------------------------- the idempotency key

  function Digit(n: int): char {
    "0123456789"[n % 10]
  }

  function Decimal(n: nat): string {
    if n < 10 then [Digit(n)] else Decimal(n / 10) + [Digit(n)]
  }

  // toISOString().slice(0, 10), for the years 0 to 9999
  function IsoText(date: Date): (text: string)
    ensures |text| == 10
  {
    [Digit(date.year / 1000), Digit(date.year / 100), Digit(date.year / 10), Digit(date.year), '-',
     Digit(date.month / 10), Digit(date.month), '-', Digit(date.day / 10), Digit(date.day)]
  }

  function KeyText(tenant: Tenant, id: Uuid, days: string, date: string): string {
    PREFIX + tenant + ":" + id + ":" + days + ":" + date
  }

  function Key(tenant: Tenant, id: Uuid, daysBeforeDue: nat, today: Date): string {
    KeyText(tenant, id, Decimal(daysBeforeDue), IsoText(today))
  }

  lemma DecimalsDiffer(n: nat)
    requires n in DEADLINE_REMINDER_DAYS
    ensures Decimal(n) == (if n == 30 then "30" else if n == 14 then "14" else if n == 7 then "7" else "1")
  {
    assert Decimal(3) == "3" && Decimal(1) == "1";
  }

  // read from the right: ten characters of date, the days, 36 characters of id
  lemma KeyEnd(tenant: Tenant, id: Uuid, days: string, date: string)
    requires |date| == 10 && 1 <= |days| <= 2
    ensures var key := KeyText(tenant, id, days, date);
            var n := |key| - 11;
            && n >= 39
            && key[n - |days|..n] == days && key[n - |days| - 1] == ':'
            && key[n - |days| - 37..n - |days| - 1] == id
  {
    var key := PREFIX + tenant + ":" + id + ":" + days + ":" + date;
    var head := PREFIX + tenant + ":";
    assert key == head + id + ":" + days + ":" + date;
    assert |head + id + ":"| == |head| + 37;
    assert key[..|head| + 37 + |days|] == head + id + ":" + days;
    assert key[|head|..|head| + 36] == id;
  }

  lemma KeyTextInjective(tenant: Tenant, id: Uuid, days: string, date: string, tenant': Tenant, id': Uuid,
                         days': string, date': string)
    requires |date| == 10 && |date'| == 10 && 1 <= |days| <= 2 && 1 <= |days'| <= 2 && days[0] != ':' && days'[0] != ':'
    requires KeyText(tenant, id, days, date) == KeyText(tenant', id', days', date')
    ensures id == id' && days == days'
  {
    hide KeyText;
    KeyEnd(tenant, id, days, date);
    KeyEnd(tenant', id', days', date');
  }

  /** Keys of different deadlines, or of different numbers of days, differ. */
  lemma KeyInjective(tenant: Tenant, id: Uuid, n: nat, today: Date, tenant': Tenant, id': Uuid, n': nat, today': Date)
    requires n in DEADLINE_REMINDER_DAYS && n' in DEADLINE_REMINDER_DAYS
    requires Key(tenant, id, n, today) == Key(tenant', id', n', today')
    ensures id == id' && n == n'
  {
    hide Decimal, IsoText, KeyText;
    DecimalsDiffer(n);
    DecimalsDiffer(n');
    KeyTextInjective(tenant, id, Decimal(n), IsoText(today), tenant', id', Decimal(n'), IsoText(today'));
  }

  /** The key as it reads: prefix, tenant, deadline, days and the day of the run. */
  lemma KeyReads(tenant: Tenant, id: Uuid, n: nat, today: Date)
    requires n in {30, 14, 7, 1}
    ensures Key(tenant, id, n, today)
         == "t2p.deadline_approaching:" + tenant + ":" + id + ":"
            + (if n == 30 then "30" else if n == 14 then "14" else if n == 7 then "7" else "1") + ":" + IsoText(today)
  {
    hide Decimal, IsoText;
    DecimalsDiffer(n);
  }

  // the number that decimal digits stand for, -1 if there are other characters
  function NumberIn(s: string): int {
    if s == "" then 0
    else
      var front, last := NumberIn(s[..|s| - 1]), s[|s| - 1] as int - '0' as int;
      if front < 0 || last < 0 || last > 9 then -1 else 10 * front + last
  }

  lemma DigitReads(n: nat)
    ensures Digit(n) as int == '0' as int + n % 10
  {
  }

  // one more digit
  lemma DigitsRead(s: string, n: nat, t: string)
    requires NumberIn(s) == n / 10 && t == s + [Digit(n)]
    ensures NumberIn(t) == n
  {
    DigitReads(n);
    assert t[..|t| - 1] == s;
  }

  lemma TwoDigitsRead(n: nat)
    requires n <= 99
    ensures NumberIn([Digit(n / 10), Digit(n)]) == n
  {
    hide Digit;
    assert NumberIn("") == 0;
    hide NumberIn;
    DigitsRead("", n / 10, [Digit(n / 10)]);
    DigitsRead([Digit(n / 10)], n, [Digit(n / 10), Digit(n)]);
  }

  lemma FourDigitsRead(n: nat)
    requires n <= 9999
    ensures NumberIn([Digit(n / 1000), Digit(n / 100), Digit(n / 10), Digit(n)]) == n
  {
    assert n / 100 / 10 == n / 1000 && n / 10 / 10 == n / 100;
    var a, b, c, d := Digit(n / 1000), Digit(n / 100), Digit(n / 10), Digit(n);
    hide Digit;
    assert NumberIn("") == 0;
    hide NumberIn;
    DigitsRead("", n / 1000, [a]);
    DigitsRead([a], n / 100, [a, b]);
    DigitsRead([a, b], n / 10, [a, b, c]);
    DigitsRead([a, b, c], n, [a, b, c, d]);
  }

  /** The date as it reads: YYYY-MM-DD. */
  lemma IsoTextReads(date: Date)
    requires 0 <= date.year <= 9999 && 1 <= date.month <= 12 && 1 <= date.day <= 31
    ensures var text := IsoText(date);
            && text[4] == text[7] == '-' && NumberIn(text[..4]) == date.year && NumberIn(text[5..7]) == date.month
            && NumberIn(text[8..]) == date.day
  {
    hide Digit, NumberIn;
    var y, m, d := date.year, date.month, date.day;
    FourDigitsRead(y);
    TwoDigitsRead(m);
    TwoDigitsRead(d);
    assert IsoText(date)[..4] == [Digit(y / 1000), Digit(y / 100), Digit(y / 10), Digit(y)];
    assert IsoText(date)[5..7] == [Digit(m / 10), Digit(m)];
    assert IsoText(date)[8..] == [Digit(d / 10), Digit(d)];
  }

  // ---------------------------------------------------------------- one run of the job

  predicate Upcoming(deadline: Deadline, today: Date) {
    !deadline.fulfilled && DayNumber(today) <= DayNumber(deadline.dueDate) <= DayNumber(AddDays(today, 30))
  }

  predicate Reminds(deadline: Deadline, today: Date) {
    Upcoming(deadline, today) && DaysBetween(today, deadline.dueDate) in DEADLINE_REMINDER_DAYS
  }

  predicate Owes(deadlines: Deadlines, today: Date, id: Uuid) {
    id in deadlines && Reminds(deadlines[id], today)
  }

  function KeyFor(deadlines: Deadlines, today: Date, id: Uuid): string
    requires Owes(deadlines, today, id)
  {
    Key(deadlines[id].tenant, id, DaysBetween(today, deadlines[id].dueDate), today)
  }

  function EntryFor(deadlines: Deadlines, today: Date, id: Uuid): Entry
    requires Owes(deadlines, today, id)
  {
    Reminder(id, deadlines[id].dueDate, DaysBetween(today, deadlines[id].dueDate))
  }

  /** What is owed, and under which key: the reminder of an unfulfilled deadline 30, 14, 7 or 1 days from today. */
  lemma OwedReads(deadlines: Deadlines, today: Date, id: Uuid)
    ensures Owes(deadlines, today, id)
            <==> id in deadlines && !deadlines[id].fulfilled
                 && DayNumber(deadlines[id].dueDate) - DayNumber(today) in {30, 14, 7, 1}
    ensures Owes(deadlines, today, id) ==>
              var days := DayNumber(deadlines[id].dueDate) - DayNumber(today);
              && KeyFor(deadlines, today, id) == Key(deadlines[id].tenant, id, days, today)
              && EntryFor(deadlines, today, id) == Reminder(id, deadlines[id].dueDate, days)
  {
    if id in deadlines {
      DaysBetweenIsDifference(today, deadlines[id].dueDate);
      UpcomingReads(deadlines[id], today);
    }
    hide Upcoming, DayNumber, DaysBetween, Key;
  }

  /** Upcoming: not fulfilled and due from today up to 30 days on. */
  lemma UpcomingReads(deadline: Deadline, today: Date)
    ensures Upcoming(deadline, today)
            <==> !deadline.fulfilled && 0 <= DayNumber(deadline.dueDate) - DayNumber(today) <= 30
  {
    hide MonthStart, MonthLength, Valid;
  }

  // `after` is `before` and a row for every reminder owed by the deadlines the run has got to
  ghost predicate Reminded(before: Outbox, after: Outbox, deadlines: Deadlines, today: Date, reached: set<Uuid>) {
    && (forall key | key in before :: key in after && after[key] == before[key])
    && (forall id | id in reached && Owes(deadlines, today, id) :: KeyFor(deadlines, today, id) in after)
    && (forall key | key in after && key !in before ::
          exists id :: id in reached && Owes(deadlines, today, id)
                       && key == KeyFor(deadlines, today, id) && after[key] == EntryFor(deadlines, today, id))
  }

  lemma RemindedNext(before: Outbox, outbox: Outbox, deadlines: Deadlines, today: Date, reached: set<Uuid>, id: Uuid)
    requires Reminded(before, outbox, deadlines, today, reached)
    ensures !Owes(deadlines, today, id) ==> Reminded(before, outbox, deadlines, today, reached + {id})
    ensures Owes(deadlines, today, id) ==>
              Reminded(before, InsertIfAbsent(outbox, KeyFor(deadlines, today, id), EntryFor(deadlines, today, id)),
                       deadlines, today, reached + {id})
  {
    hide Owes, KeyFor, EntryFor;
  }

  ghost predicate Selected(deadlines: Deadlines, tenant: Tenant, today: Date, upcoming: seq<Uuid>) {
    && (forall i | 0 <= i < |upcoming| ::
          upcoming[i] in deadlines && deadlines[upcoming[i]].tenant == tenant
            && Upcoming(deadlines[upcoming[i]], today))
    && (forall i, j | 0 <= i < j < |upcoming| :: upcoming[i] != upcoming[j])
    && (forall id | id in deadlines && deadlines[id].tenant == tenant && Upcoming(deadlines[id], today) ::
          id in upcoming)
  }

  lemma OwesIff(deadlines: Deadlines, today: Date, id: Uuid)
    requires id in deadlines && Upcoming(deadlines[id], today)
    ensures Owes(deadlines, today, id) <==> DaysBetween(today, deadlines[id].dueDate) in DEADLINE_REMINDER_DAYS
    ensures Owes(deadlines, today, id) ==>
              var days := DaysBetween(today, deadlines[id].dueDate);
              && KeyFor(deadlines, today, id) == Key(deadlines[id].tenant, id, days, today)
              && EntryFor(deadlines, today, id) == Reminder(id, deadlines[id].dueDate, days)
  {
    hide Upcoming, DaysBetween, Key;
  }

  lemma NothingReached(outbox: Outbox, deadlines: Deadlines, today: Date)
    ensures Reminded(outbox, outbox, deadlines, today, {}) && Owed(deadlines, today, {}) == {}
  {
  }

  lemma RemindedTwice(first: Outbox, second: Outbox, third: Outbox, deadlines: Deadlines, today: Date,
                      reached: set<Uuid>, more: set<Uuid>)
    requires Reminded(first, second, deadlines, today, reached) && Reminded(second, third, deadlines, today, more)
    ensures Reminded(first, third, deadlines, today, reached + more)
  {
    hide Owes, KeyFor, EntryFor;
  }

  function Owed(deadlines: Deadlines, today: Date, reached: set<Uuid>): set<Uuid> {
    set id | id in reached && Owes(deadlines, today, id)
  }

  lemma OwedNext(deadlines: Deadlines, today: Date, reached: set<Uuid>, id: Uuid)
    requires id !in reached
    ensures |Owed(deadlines, today, reached + {id})|
            == |Owed(deadlines, today, reached)| + if Owes(deadlines, today, id) then 1 else 0
  {
    hide Owes;
    assert Owed(deadlines, today, reached + {id})
           == Owed(deadlines, today, reached) + if Owes(deadlines, today, id) then {id} else {};
  }

  lemma OwedTogether(deadlines: Deadlines, today: Date, reached: set<Uuid>, more: set<Uuid>)
    requires reached !! more
    ensures |Owed(deadlines, today, reached + more)|
            == |Owed(deadlines, today, reached)| + |Owed(deadlines, today, more)|
  {
    hide Owes;
    assert Owed(deadlines, today, reached + more) == Owed(deadlines, today, reached) + Owed(deadlines, today, more);
  }

  class MaintenanceJob {
    var deadlines: Deadlines
    var outbox: Outbox

    constructor ()
      ensures deadlines == map[] && outbox == map[]
    {
      deadlines, outbox := map[], map[];
    }

    // a tenant's rows in any order
    method SelectUpcoming(tenant: Tenant, today: Date) returns (upcoming: seq<Uuid>)
      ensures Selected(deadlines, tenant, today, upcoming)
    {
      hide Upcoming;
      upcoming := [];
      var rest := set id | id in deadlines && deadlines[id].tenant == tenant && Upcoming(deadlines[id], today);
      while rest != {}
        invariant forall i | 0 <= i < |upcoming| ::
                    upcoming[i] in deadlines && deadlines[upcoming[i]].tenant == tenant
                      && Upcoming(deadlines[upcoming[i]], today)
        invariant forall i, j | 0 <= i < j < |upcoming| :: upcoming[i] != upcoming[j]
        invariant forall id | id in deadlines && deadlines[id].tenant == tenant && Upcoming(deadlines[id], today) ::
                    id in upcoming || id in rest
        invariant forall id | id in rest ::
                    id !in upcoming && id in deadlines && deadlines[id].tenant == tenant
                      && Upcoming(deadlines[id], today)
        decreases rest
      {
        var id :| id in rest;
        rest := rest - {id};
        upcoming := upcoming + [id];
      }
    }

    // one tenant's turn, which an error may end after some of its rows
    method RemindTenant(tenant: Tenant, today: Date, failsAt: Option<nat>) returns (count: nat, reached: set<Uuid>)
      modifies this`outbox
      ensures Reminded(old(outbox), outbox, deadlines, today, reached)
      ensures forall id | id in reached ::
                id in deadlines && deadlines[id].tenant == tenant && Upcoming(deadlines[id], today)
      ensures failsAt.None? ==>
                forall id | id in deadlines && deadlines[id].tenant == tenant && Upcoming(deadlines[id], today) ::
                  id in reached
      ensures count == |Owed(deadlines, today, reached)|
    {
      hide Upcoming, DaysBetween, Key, Reminded, Owes, Owed, KeyFor, EntryFor;
      NothingReached(outbox, deadlines, today);
      var upcoming := SelectUpcoming(tenant, today);
      count, reached := 0, {};
      var i := 0;
      while i < |upcoming| && failsAt != Some(i)
        invariant i <= |upcoming|
        invariant Reminded(old(outbox), outbox, deadlines, today, reached)
        invariant forall k | 0 <= k < i :: upcoming[k] in reached
        invariant forall k | i <= k < |upcoming| :: upcoming[k] !in reached
        invariant forall id | id in reached :: id in upcoming
        invariant count == |Owed(deadlines, today, reached)|
      {
        var id := upcoming[i];
        var deadline := deadlines[id];
        var daysBeforeDue := DaysBetween(today, deadline.dueDate);
        RemindedNext(old(outbox), outbox, deadlines, today, reached, id);
        OwesIff(deadlines, today, id);
        OwedNext(deadlines, today, reached, id);
        if daysBeforeDue in DEADLINE_REMINDER_DAYS {
          var key := Key(tenant, id, daysBeforeDue, today);
          if key !in outbox {
            outbox := outbox[key := Reminder(id, deadline.dueDate, daysBeforeDue)];
          }
          count := count + 1;
        }
        reached := reached + {id};
        i := i + 1;
      }
    }

    // `failsAt` says after how many of a tenant's rows an error ends that tenant's turn
    method EnqueueDailyMaintenance(today: Date, tenants: seq<Tenant>, failsAt: Tenant -> Option<nat>)
      returns (deadlineReminders: nat, reached: set<Uuid>)
      requires forall i, j | 0 <= i < j < |tenants| :: tenants[i] != tenants[j]
      modifies this`outbox
      ensures Reminded(old(outbox), outbox, deadlines, today, reached)
      ensures forall id | id in reached ::
                id in deadlines && deadlines[id].tenant in tenants && Upcoming(deadlines[id], today)
      ensures forall id | && id in deadlines && deadlines[id].tenant in tenants
                          && failsAt(deadlines[id].tenant).None? && Upcoming(deadlines[id], today) :: id in reached
      ensures deadlineReminders == |Owed(deadlines, today, reached)|
    {
      hide Upcoming, DaysBetween, Key, Reminded, Owes, Owed, KeyFor, EntryFor;
      NothingReached(outbox, deadlines, today);
      deadlineReminders, reached := 0, {};
      for t := 0 to |tenants|
        invariant Reminded(old(outbox), outbox, deadlines, today, reached)
        invariant forall id | id in reached ::
                    id in deadlines && deadlines[id].tenant in tenants[..t] && Upcoming(deadlines[id], today)
        invariant forall id | && id in deadlines && deadlines[id].tenant in tenants[..t]
                              && failsAt(deadlines[id].tenant).None? && Upcoming(deadlines[id], today) :: id in reached
        invariant deadlineReminders == |Owed(deadlines, today, reached)|
      {
        label before:
        var count, more := RemindTenant(tenants[t], today, failsAt(tenants[t]));
        RemindedTwice(old(outbox), old@before(outbox), outbox, deadlines, today, reached, more);
        OwedTogether(deadlines, today, reached, more);
        deadlineReminders := deadlineReminders + count;
        reached := reached + more;
      }
    }
  }
}
