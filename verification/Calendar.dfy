/**
  Month arithmetic on UTC timestamps, as dateutil's `relativedelta(months=1)` does it: the day of
  the month is cut down to the length of the month it lands in.
 */
module Calendar {
  datatype Date = Date(year: int, month: int, day: int)

  /** Microseconds since midnight. */
  datatype Timestamp = Timestamp(date: Date, time: nat)

  const DAY := 24 * 3600 * 1_000_000

  predicate IsLeap(year: int) {
    year % 4 == 0 && (year % 100 != 0 || year % 400 == 0)
  }

  function DaysIn(year: int, month: int): (days: int)
    ensures 28 <= days <= 31
  {
    if month == 2 then if IsLeap(year) then 29 else 28
    else if month in {4, 6, 9, 11} then 30
    else 31
  }

  predicate ValidDate(d: Date) {
    1 <= d.month <= 12 && 1 <= d.day <= DaysIn(d.year, d.month)
  }

  predicate Valid(t: Timestamp) {
    ValidDate(t.date) && t.time < DAY
  }

  predicate DateBefore(a: Date, b: Date) {
    a.year < b.year || (a.year == b.year && (a.month < b.month || (a.month == b.month && a.day < b.day)))
  }

  predicate AtOrBefore(a: Timestamp, b: Timestamp) {
    DateBefore(a.date, b.date) || (a.date == b.date && a.time <= b.time)
  }

  function Min(a: int, b: int): int {
    if a < b then a else b
  }

  function Clamped(year: int, month: int, day: int): Date {
    Date(year, month, Min(day, DaysIn(year, month)))
  }

  function NextMonth(d: Date): Date {
    if d.month == 12 then Clamped(d.year + 1, 1, d.day) else Clamped(d.year, d.month + 1, d.day)
  }

  function PreviousMonth(d: Date): Date {
    if d.month == 1 then Clamped(d.year - 1, 12, d.day) else Clamped(d.year, d.month - 1, d.day)
  }

  function NextDay(d: Date): Date {
    if d.day < DaysIn(d.year, d.month) then d.(day := d.day + 1)
    else if d.month == 12 then Date(d.year + 1, 1, 1)
    else Date(d.year, d.month + 1, 1)
  }

  function PlusMonth(t: Timestamp): Timestamp {
    t.(date := NextMonth(t.date))
  }

  function MinusMonth(t: Timestamp): Timestamp {
    t.(date := PreviousMonth(t.date))
  }

  function PlusDays(t: Timestamp, days: nat): Timestamp
    decreases days
  {
    if days == 0 then t else PlusDays(t.(date := NextDay(t.date)), days - 1)
  }

  /** The file of an archived workspace is due; the cutoff is one month before now. */
  predicate Due(archived: Timestamp, now: Timestamp) {
    AtOrBefore(archived, MinusMonth(now))
  }

  function DeletionAt(archived: Timestamp): Timestamp {
    PlusMonth(archived)
  }

  predicate IsLastDay(d: Date) {
    d.day == DaysIn(d.year, d.month)
  }

  /**
    The two ways in which the cutoff lags behind the deletion date: the deletion date was cut down to
    the last day of its month, which is today; or today is past the length of the previous month, on
    whose last day the workspace was archived at a later time of day.
   */
  predicate Lags(archived: Timestamp, now: Timestamp) {
    NextMonth(archived.date).year == now.date.year && NextMonth(archived.date).month == now.date.month &&
    ((IsLastDay(now.date) && archived.date.day > now.date.day && archived.time <= now.time) ||
     (archived.date.day < now.date.day && IsLastDay(archived.date) && archived.time > now.time))
  }

  /** The cutoff query and the deletion date agree except in exactly those two cases. */
  lemma DueIff(archived: Timestamp, now: Timestamp)
    requires Valid(archived) && Valid(now)
    ensures Due(archived, now) <==> AtOrBefore(DeletionAt(archived), now) && !Lags(archived, now)
  {
  }

  /** Never early. */
  lemma NeverEarly(archived: Timestamp, now: Timestamp)
    requires Valid(archived) && Valid(now) && Due(archived, now)
    ensures AtOrBefore(DeletionAt(archived), now)
  {
    DueIff(archived, now);
  }

  lemma LagEndsWithinThreeDays(archived: Timestamp, now: Timestamp)
    requires Valid(archived) && Valid(now) && Lags(archived, now)
    ensures !AtOrBefore(PlusDays(DeletionAt(archived), 3), now)
  {
    var first := DeletionAt(archived);
    var second := PlusDays(first, 1);
    var third := PlusDays(first, 2);
    assert PlusDays(first, 3) == PlusDays(second, 2) == PlusDays(third, 1);
  }

  /** At most three days late. */
  lemma AtMostThreeDaysLate(archived: Timestamp, now: Timestamp)
    requires Valid(archived) && Valid(now) && AtOrBefore(PlusDays(DeletionAt(archived), 3), now)
    ensures Due(archived, now)
  {
    DueIff(archived, now);
    if Lags(archived, now) {
      LagEndsWithinThreeDays(archived, now);
    }
    AfterDays(DeletionAt(archived), 3, now);
  }

  lemma {:induction false} AfterDays(t: Timestamp, days: nat, now: Timestamp)
    requires Valid(t) && Valid(now) && AtOrBefore(PlusDays(t, days), now)
    ensures AtOrBefore(t, now)
    decreases days
  {
    if days > 0 {
      AfterDays(t.(date := NextDay(t.date)), days - 1, now);
    }
  }

  /** Three days is the best bound: one microsecond less and the workspace can still wait. */
  lemma ThreeDaysIsTight()
    ensures var archived := Timestamp(Date(2023, 2, 28), DAY / 2);
            var now := Timestamp(Date(2023, 3, 31), DAY / 2 - 1);
            PlusDays(DeletionAt(archived), 3) == Timestamp(Date(2023, 3, 31), DAY / 2) && !Due(archived, now)
  {
    var first := Timestamp(Date(2023, 3, 28), DAY / 2);
    assert PlusDays(first, 3) == PlusDays(Timestamp(Date(2023, 3, 29), DAY / 2), 2) ==
             PlusDays(Timestamp(Date(2023, 3, 30), DAY / 2), 1);
  }

  /** A month on or back is the next or previous calendar month, on the same day or, if that is missing, its last. */
  lemma MonthShifts(d: Date)
    requires ValidDate(d)
    ensures forall m :: m in {NextMonth(d), PreviousMonth(d)} ==>
              ValidDate(m) && m.day <= d.day && (m.day == d.day || IsLastDay(m))
    ensures 12 * NextMonth(d).year + NextMonth(d).month == 12 * d.year + d.month + 1
    ensures 12 * PreviousMonth(d).year + PreviousMonth(d).month == 12 * d.year + d.month - 1
  {
  }

  /** The months of a year make up 365 days, or 366 in a leap year. */
  lemma YearLength(year: int)
    ensures DaysIn(year, 1) + DaysIn(year, 2) + DaysIn(year, 3) + DaysIn(year, 4) + DaysIn(year, 5) + DaysIn(year, 6) +
            DaysIn(year, 7) + DaysIn(year, 8) + DaysIn(year, 9) + DaysIn(year, 10) + DaysIn(year, 11) +
            DaysIn(year, 12) == if IsLeap(year) then 366 else 365
    ensures IsLeap(2000) && IsLeap(2024) && !IsLeap(2023) && !IsLeap(1900)
  {
  }

  /** Neither month operation keeps the order of timestamps, which is why the agreement needs its proof. */
  lemma MonthsAreNotMonotone()
    ensures exists a, b :: Valid(a) && Valid(b) && AtOrBefore(a, b) && !AtOrBefore(PlusMonth(a), PlusMonth(b))
    ensures exists a, b :: Valid(a) && Valid(b) && AtOrBefore(a, b) && !AtOrBefore(MinusMonth(a), MinusMonth(b))
  {
    var a, b := Timestamp(Date(2023, 1, 30), 1), Timestamp(Date(2023, 1, 31), 0);
    assert AtOrBefore(a, b) && !AtOrBefore(PlusMonth(a), PlusMonth(b));
    var c, d := Timestamp(Date(2023, 3, 30), 1), Timestamp(Date(2023, 3, 31), 0);
    assert AtOrBefore(c, d) && !AtOrBefore(MinusMonth(c), MinusMonth(d));
  }
}
