/** The UTC calendar arithmetic of confirm-dispatch-assignment.ts and daily-maintenance.ts. */
module Calendar {
  import opened Tables

  datatype Date = Date(year: int, month: int, day: int)

  // ---------------------------------------------------------------- the Gregorian calendar as ECMAScript counts it

  predicate IsLeap(year: int) {
    year % 4 == 0 && (year % 100 != 0 || year % 400 == 0)
  }

  // months are counted from year 0: a month index is year * 12 + month - 1
  function MonthLength(k: int): int {
    if k % 12 == 1 then (if IsLeap(k / 12) then 29 else 28)
    else if k % 12 == 3 || k % 12 == 5 || k % 12 == 8 || k % 12 == 10 then 30
    else 31
  }

  const EPOCH_MONTH := 1970 * 12

  // the day number of a month's first day, 1970-01-01 being day 0
  function MonthStart(k: int): int
    decreases if k >= EPOCH_MONTH then k - EPOCH_MONTH else EPOCH_MONTH - k
  {
    if k == EPOCH_MONTH then 0
    else if k > EPOCH_MONTH then MonthStart(k - 1) + MonthLength(k - 1)
    else MonthStart(k + 1) - MonthLength(k)
  }

  function MonthIndex(date: Date): int {
    date.year * 12 + date.month - 1
  }

  predicate Valid(date: Date) {
    1 <= date.month <= 12 && 1 <= date.day <= MonthLength(MonthIndex(date))
  }

  function DayNumber(date: Date): int {
    MonthStart(MonthIndex(date)) + date.day - 1
  }

  lemma NextMonth(k: int)
    ensures MonthStart(k + 1) == MonthStart(k) + MonthLength(k)
  {
    hide MonthLength;
  }

  // ---------------------------------------------------------------- the closed form of ECMAScript

  // DayFromYear: the day number of January 1st
  function DayFromYear(year: int): int {
    365 * (year - 1970) + (year - 1969) / 4 - (year - 1901) / 100 + (year - 1601) / 400
  }

  function DaysBeforeMonth(leap: bool, m: int): int
    requires 0 <= m < 12
  {
    [0, 31, 59, 90, 120, 151, 181, 212, 243, 273, 304, 334][m] + (if leap && m >= 2 then 1 else 0)
  }

  function ClosedStart(k: int): int {
    DayFromYear(k / 12) + DaysBeforeMonth(IsLeap(k / 12), k % 12)
  }

  lemma YearLength(year: int)
    ensures DayFromYear(year + 1) - DayFromYear(year) == if IsLeap(year) then 366 else 365
  {
    CarryOver(year - 1969, 4);
    CarryOver(year - 1901, 100);
    CarryOver(year - 1601, 400);
    FoursAlign(year);
    CenturiesAlign(year);
    FourCenturiesAlign(year);
  }

  // DayFromYear counts from years that are multiples of 4, 100 and 400
  lemma FoursAlign(year: int)
    ensures (year - 1969 + 1) % 4 == year % 4
  {
  }

  lemma CenturiesAlign(year: int)
    ensures (year - 1901 + 1) % 100 == year % 100
    ensures year % 100 == 0 ==> year % 4 == 0
  {
  }

  lemma FourCenturiesAlign(year: int)
    ensures (year - 1601 + 1) % 400 == year % 400
    ensures year % 400 == 0 ==> year % 100 == 0
  {
  }

  lemma CarryOver(x: int, q: int)
    requires q == 4 || q == 100 || q == 400
    ensures (x + 1) / q - x / q == if (x + 1) % q == 0 then 1 else 0
  {
  }

  lemma ClosedNextMonth(k: int)
    ensures ClosedStart(k + 1) == ClosedStart(k) + MonthLength(k)
  {
    YearLength(k / 12);
    if k % 12 == 11 {
      assert (k + 1) / 12 == k / 12 + 1 && (k + 1) % 12 == 0;
    } else {
      assert (k + 1) / 12 == k / 12 && (k + 1) % 12 == k % 12 + 1;
    }
  }

  lemma ClosedEpoch()
    ensures ClosedStart(EPOCH_MONTH) == 0
  {
  }

  /** Counting month by month gives the day numbers that ECMAScript computes in closed form. */
  lemma {:induction false} MonthStartIsClosed(k: int)
    ensures MonthStart(k) == ClosedStart(k)
    decreases if k >= EPOCH_MONTH then k - EPOCH_MONTH else EPOCH_MONTH - k
  {
    hide ClosedStart, MonthLength;
    if k == EPOCH_MONTH {
      ClosedEpoch();
    } else if k > EPOCH_MONTH {
      MonthStartIsClosed(k - 1);
      ClosedNextMonth(k - 1);
    } else {
      MonthStartIsClosed(k + 1);
      ClosedNextMonth(k);
    }
  }

  // ---------------------------------------------------------------- months apart and the order of dates

  lemma MonthLengthBounds(k: int)
    ensures 28 <= MonthLength(k) <= 31
  {
  }

  lemma {:induction false} MonthsApart(k: int, l: int)
    requires k <= l
    ensures 28 * (l - k) <= MonthStart(l) - MonthStart(k) <= 31 * (l - k)
    decreases l - k
  {
    hide MonthStart, MonthLength;
    if k < l {
      MonthsApart(k, l - 1);
      NextMonth(l - 1);
      MonthLengthBounds(l - 1);
    }
  }

  /** The day number orders dates by month, then by day. */
  lemma DayNumberOrders(a: Date, b: Date)
    requires Valid(a) && Valid(b)
    ensures DayNumber(a) < DayNumber(b)
            <==> MonthIndex(a) < MonthIndex(b) || (MonthIndex(a) == MonthIndex(b) && a.day < b.day)
    ensures DayNumber(a) == DayNumber(b) <==> a == b
  {
    hide MonthStart, MonthLength;
    var k, l := MonthIndex(a), MonthIndex(b);
    if k < l {
      NextMonth(k);
      MonthsApart(k + 1, l);
    } else if l < k {
      NextMonth(l);
      MonthsApart(l + 1, k);
    }
  }

  // ---------------------------------------------------------------- from a day number back to a date

  function MonthUp(n: int, k: int): (r: int)
    requires MonthStart(k) <= n
    ensures MonthStart(r) <= n < MonthStart(r + 1)
    decreases n - MonthStart(k)
  {
    hide MonthStart, MonthLength;
    NextMonth(k);
    MonthLengthBounds(k);
    if MonthStart(k + 1) <= n then MonthUp(n, k + 1) else k
  }

  function MonthDown(n: int, k: int): (r: int)
    requires n < MonthStart(k)
    ensures MonthStart(r) <= n < MonthStart(r + 1)
    decreases MonthStart(k) - n
  {
    hide MonthStart, MonthLength;
    NextMonth(k - 1);
    MonthLengthBounds(k - 1);
    if n < MonthStart(k - 1) then MonthDown(n, k - 1) else k - 1
  }

  function MonthOf(n: int): (r: int)
    ensures MonthStart(r) <= n < MonthStart(r + 1)
  {
    if n >= 0 then MonthUp(n, EPOCH_MONTH) else MonthDown(n, EPOCH_MONTH)
  }

  // the date of a UTC time value
  function FromDayNumber(n: int): (date: Date)
    ensures Valid(date) && DayNumber(date) == n
  {
    hide MonthStart, MonthLength, MonthOf;
    var k := MonthOf(n);
    NextMonth(k);
    Date(k / 12, k % 12 + 1, n - MonthStart(k) + 1)
  }

  // ---------------------------------------------------------------- addDays, daysBetween

  const MS_PER_DAY := 24 * 60 * 60 * 1000

  // Date.parse(`${iso}T00:00:00.000Z`)
  function TimeValue(date: Date): int {
    DayNumber(date) * MS_PER_DAY
  }

  // Math.round(x / q)
  function RoundedQuotient(x: int, q: int): int
    requires q > 0
  {
    (2 * x + q) / (2 * q)
  }

  // MakeDay of ECMAScript: an out-of-range month or day carries over
  function MakeDay(year: int, month: int, day: int): int {
    MonthStart(year * 12 + month) + day - 1
  }

  function AddDays(date: Date, days: int): Date {
    FromDayNumber(MakeDay(date.year, date.month - 1, date.day + days))
  }

  function DaysBetween(a: Date, b: Date): int {
    RoundedQuotient(TimeValue(b) - TimeValue(a), MS_PER_DAY)
  }

  lemma DaysBetweenIsDifference(a: Date, b: Date)
    ensures DaysBetween(a, b) == DayNumber(b) - DayNumber(a)
  {
    var d := DayNumber(b) - DayNumber(a);
    assert TimeValue(b) - TimeValue(a) == d * MS_PER_DAY;
    assert (2 * (d * MS_PER_DAY) + MS_PER_DAY) / (2 * MS_PER_DAY) == d;
  }

  /** addDays and daysBetween undo each other. */
  lemma DaysRoundTrip(a: Date, b: Date, n: int)
    requires Valid(a) && Valid(b)
    ensures Valid(AddDays(a, n)) && DaysBetween(a, AddDays(a, n)) == n
    ensures AddDays(a, DaysBetween(a, b)) == b
  {
    hide MonthStart, MonthLength;
    DaysBetweenIsDifference(a, AddDays(a, n));
    DaysBetweenIsDifference(a, b);
    DayNumberOrders(AddDays(a, DaysBetween(a, b)), b);
  }

  // ---------------------------------------------------------------- addMonths

  // Date.UTC takes a year from 0 to 99 as 1900 to 1999
  function UtcYear(year: int): int {
    if 0 <= year <= 99 then 1900 + year else year
  }

  function Utc(year: int, month: int, day: int): Date {
    FromDayNumber(MakeDay(UtcYear(year), month, day))
  }

  function Min(a: int, b: int): int {
    if a <= b then a else b
  }

  function AddMonths(date: Date, months: int): Date {
    var month := date.month - 1 + months;
    var lastDayOfTargetMonth := Utc(date.year, month + 1, 0).day;
    Utc(date.year, month, Min(date.day, lastDayOfTargetMonth))
  }

  // the day of the target month, or its last day where it has no such day
  function Clamped(date: Date, months: int): Date {
    var k := MonthIndex(date) + months;
    Date(k / 12, k % 12 + 1, Min(date.day, MonthLength(k)))
  }

  lemma IndexOfMonth(k: int, day: int)
    ensures MonthIndex(Date(k / 12, k % 12 + 1, day)) == k
    ensures 1 <= k % 12 + 1 <= 12
  {
  }

  lemma UtcInMonth(k: int, day: int)
    requires 1 <= day <= MonthLength(k)
    ensures FromDayNumber(MonthStart(k) + day - 1) == Date(k / 12, k % 12 + 1, day)
  {
    hide MonthStart, MonthLength, FromDayNumber;
    IndexOfMonth(k, day);
    hide MonthIndex;
    DayNumberOrders(FromDayNumber(MonthStart(k) + day - 1), Date(k / 12, k % 12 + 1, day));
  }

  lemma ClampedAt(date: Date, year: int, months: int)
    requires Valid(date) && UtcYear(date.year) == year
    ensures AddMonths(date, months) == Clamped(Date(year, date.month, date.day), months)
  {
    hide MonthStart, MonthLength;
    var k := year * 12 + date.month - 1 + months;
    NextMonth(k);
    MonthLengthBounds(k);
    UtcInMonth(k, MonthLength(k));
    UtcInMonth(k, Min(date.day, MonthLength(k)));
  }

  lemma ClampedInTargetMonth(date: Date, months: int)
    requires Valid(date)
    ensures Valid(Clamped(date, months)) && MonthIndex(Clamped(date, months)) == MonthIndex(date) + months
  {
    hide MonthLength;
    MonthLengthBounds(MonthIndex(date) + months);
  }

  /** addMonths lands in the target month, on the same day or the month's last, exactly when the year is
      outside 0 to 99; in those years it lands 1900 years late. */
  lemma AddMonthsLands(date: Date, months: int)
    requires Valid(date)
    ensures AddMonths(date, months) == Clamped(date, months) <==> !(0 <= date.year <= 99)
    ensures Valid(Clamped(date, months)) && MonthIndex(Clamped(date, months)) == MonthIndex(date) + months
  {
    hide MonthStart, MonthLength, AddMonths, Clamped;
    ClampedAt(date, UtcYear(date.year), months);
    ClampedInTargetMonth(date, months);
    if 0 <= date.year <= 99 {
      LateByCenturies(date, months);
    }
  }

  lemma LateByCenturies(date: Date, months: int)
    requires 1 <= date.month <= 12
    ensures Clamped(Date(date.year + 1900, date.month, date.day), months) != Clamped(date, months)
  {
    hide MonthLength;
  }

  /** addMonths is weakly monotone. */
  lemma AddMonthsMonotone(a: Date, b: Date, months: int)
    requires Valid(a) && Valid(b) && a.year >= 100 && b.year >= 100 && DayNumber(a) <= DayNumber(b)
    ensures DayNumber(AddMonths(a, months)) <= DayNumber(AddMonths(b, months))
  {
    hide MonthStart, MonthLength, AddMonths;
    AddMonthsLands(a, months);
    AddMonthsLands(b, months);
    DayNumberOrders(a, b);
    DayNumberOrders(b, a);
    DayNumberOrders(Clamped(b, months), Clamped(a, months));
  }

  /** Adding months in two goes never lands later than adding them at once. */
  lemma AddMonthsTwice(date: Date, a: nat, b: int)
    requires Valid(date) && date.year >= 100
    ensures DayNumber(AddMonths(AddMonths(date, a), b)) <= DayNumber(AddMonths(date, a + b))
  {
    hide MonthStart, MonthLength, AddMonths;
    AddMonthsLands(date, a);
    AddMonthsLands(date, a + b);
    AddMonthsLands(Clamped(date, a), b);
    DayNumberOrders(Clamped(date, a + b), Clamped(Clamped(date, a), b));
  }

  // ---------------------------------------------------------------- the T2P deadlines

  datatype Policy = Policy(key: string, months: int)

  const T2P_DEADLINE_POLICIES: seq<Policy> := [Policy("t2p_month_4", 4), Policy("t2p_month_5", 5),
                                               Policy("t2p_month_6", 6)]

  const NUM_POLICIES := 3

  // what the loop reports after n policies
  function T2pDeadlines(start: Date, n: nat): seq<(string, Date)>
    requires n <= NUM_POLICIES
  {
    if n == 0 then []
    else
      T2pDeadlines(start, n - 1)
      + [(T2P_DEADLINE_POLICIES[n - 1].key, AddMonths(start, T2P_DEADLINE_POLICIES[n - 1].months))]
  }

  // the rows by subject and policy, as the unique index has them
  type Rows = map<(nat, string), Date>

  // the deadline table after n policies
  function RowsAfter(rows: Rows, subject: nat, start: Date, n: nat): Rows
    requires n <= NUM_POLICIES
  {
    if n == 0 then rows
    else
      var policy := T2P_DEADLINE_POLICIES[n - 1];
      InsertIfAbsent(RowsAfter(rows, subject, start, n - 1), (subject, policy.key), AddMonths(start, policy.months))
  }

  class DeadlineTable {
    var rows: Rows

    constructor ()
      ensures rows == map[]
    {
      rows := map[];
    }

    // the loop of confirmDispatchAssignment
    method CreateT2pDeadlines(subject: nat, start: Date, t2pFlag: bool) returns (t2pDeadlines: seq<(string, Date)>)
      modifies this
      ensures t2pDeadlines == T2pDeadlines(start, if t2pFlag then NUM_POLICIES else 0)
      ensures rows == RowsAfter(old(rows), subject, start, if t2pFlag then NUM_POLICIES else 0)
      ensures !t2pFlag ==> t2pDeadlines == [] && rows == old(rows)
      ensures t2pFlag ==>
                && t2pDeadlines == [("t2p_month_4", AddMonths(start, 4)), ("t2p_month_5", AddMonths(start, 5)),
                                    ("t2p_month_6", AddMonths(start, 6))]
                && rows == map[(subject, "t2p_month_4") := AddMonths(start, 4),
                               (subject, "t2p_month_5") := AddMonths(start, 5),
                               (subject, "t2p_month_6") := AddMonths(start, 6)] + old(rows)
    {
      T2pDeadlinesAre(start);
      DeadlinesAreRecorded(rows, subject, start);
      hide AddMonths;
      t2pDeadlines := [];
      if t2pFlag {
        for n := 0 to NUM_POLICIES
          invariant t2pDeadlines == T2pDeadlines(start, n)
          invariant rows == RowsAfter(old(rows), subject, start, n)
        {
          var policy := T2P_DEADLINE_POLICIES[n];
          var dueDate := AddMonths(start, policy.months);
          if (subject, policy.key) !in rows {
            rows := rows[(subject, policy.key) := dueDate];
          }
          t2pDeadlines := t2pDeadlines + [(policy.key, dueDate)];
        }
      }
    }
  }

  lemma T2pDeadlinesAre(start: Date)
    ensures T2pDeadlines(start, NUM_POLICIES)
            == [("t2p_month_4", AddMonths(start, 4)), ("t2p_month_5", AddMonths(start, 5)),
                ("t2p_month_6", AddMonths(start, 6))]
  {
    hide AddMonths;
    assert T2pDeadlines(start, 1) == [("t2p_month_4", AddMonths(start, 4))];
    assert T2pDeadlines(start, 2) == [("t2p_month_4", AddMonths(start, 4)), ("t2p_month_5", AddMonths(start, 5))];
  }

  /** The table gains exactly the deadlines the operation reports, and a row that was there before wins. */
  lemma DeadlinesAreRecorded(rows: Rows, subject: nat, start: Date)
    ensures |T2pDeadlines(start, NUM_POLICIES)| == NUM_POLICIES
    ensures forall i | 0 <= i < NUM_POLICIES :: T2pDeadlines(start, NUM_POLICIES)[i].0 == T2P_DEADLINE_POLICIES[i].key
    ensures RowsAfter(rows, subject, start, NUM_POLICIES)
            == map[(subject, T2pDeadlines(start, NUM_POLICIES)[0].0) := T2pDeadlines(start, NUM_POLICIES)[0].1,
                   (subject, T2pDeadlines(start, NUM_POLICIES)[1].0) := T2pDeadlines(start, NUM_POLICIES)[1].1,
                   (subject, T2pDeadlines(start, NUM_POLICIES)[2].0) := T2pDeadlines(start, NUM_POLICIES)[2].1] + rows
  {
    hide AddMonths;
    T2pDeadlinesAre(start);
    var one := RowsAfter(rows, subject, start, 1);
    var two := RowsAfter(rows, subject, start, 2);
    assert RowsAfter(rows, subject, start, 0) == rows;
    assert one == map[(subject, "t2p_month_4") := AddMonths(start, 4)] + rows;
    assert two
        == map[(subject, "t2p_month_4") := AddMonths(start, 4), (subject, "t2p_month_5") := AddMonths(start, 5)] + rows;
  }

  // the second bound allows for a clamped day
  lemma HalfYear(k: int)
    ensures 181 <= MonthStart(k + 6) - MonthStart(k) <= 184
    ensures 181 <= MonthStart(k + 6) + MonthLength(k + 6) - MonthStart(k) - MonthLength(k)
  {
    hide MonthStart;
    NextMonth(k);
    NextMonth(k + 1);
    NextMonth(k + 2);
    NextMonth(k + 3);
    NextMonth(k + 4);
    NextMonth(k + 5);
  }

  lemma HalfYearFrom(start: Date)
    requires Valid(start)
    ensures 181 <= DayNumber(Clamped(start, 6)) - DayNumber(start) <= 184
  {
    hide MonthStart, MonthLength;
    HalfYear(MonthIndex(start));
    ClampedInTargetMonth(start, 6);
  }

  /** The 4-, 5- and 6-month deadlines are strictly increasing, and the last lies 181 to 184 days after the start. */
  lemma T2pDeadlinesIncrease(start: Date)
    requires Valid(start) && start.year >= 100
    ensures |T2pDeadlines(start, NUM_POLICIES)| == NUM_POLICIES
    ensures DayNumber(start) < DayNumber(T2pDeadlines(start, NUM_POLICIES)[0].1)
              < DayNumber(T2pDeadlines(start, NUM_POLICIES)[1].1) < DayNumber(T2pDeadlines(start, NUM_POLICIES)[2].1)
    ensures 181 <= DaysBetween(start, T2pDeadlines(start, NUM_POLICIES)[2].1) <= 184
  {
    hide MonthStart, MonthLength, AddMonths, Clamped, T2pDeadlines;
    T2pDeadlinesAre(start);
    AddMonthsLands(start, 4);
    AddMonthsLands(start, 5);
    AddMonthsLands(start, 6);
    DayNumberOrders(start, Clamped(start, 4));
    DayNumberOrders(Clamped(start, 4), Clamped(start, 5));
    DayNumberOrders(Clamped(start, 5), Clamped(start, 6));
    DaysBetweenIsDifference(start, Clamped(start, 6));
    HalfYearFrom(start);
  }
}
