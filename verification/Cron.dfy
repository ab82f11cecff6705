/**
 * The schedule of the backup service (src/lib/backups/cron.ts, nextRun): the
 * search that steps over whole months and hours finds the same slot as trying
 * every minute. Times are milliseconds since 1970 in UTC.
 */
module Cron {
  import opened Names

  const MINUTE: nat := 60_000
  const HORIZON: nat := 5 * 366 * 86_400_000

  /* ---- The calendar, day by day ---- */

  datatype Date = Date(year: nat, month: nat, day: nat)

  predicate Leap(year: nat) { year % 4 == 0 && (year % 100 != 0 || year % 400 == 0) }

  function MonthLength(year: nat, month: nat): nat {
    if month == 2 then (if Leap(year) then 29 else 28)
    else if month == 4 || month == 6 || month == 9 || month == 11 then 30
    else 31
  }

  function Tomorrow(d: Date): Date {
    if d.day < MonthLength(d.year, d.month) then Date(d.year, d.month, d.day + 1)
    else FirstOfNext(d)
  }

  function FirstOfNext(d: Date): Date {
    if d.month < 12 then Date(d.year, d.month + 1, 1) else Date(d.year + 1, 1, 1)
  }

  function DateOf(day: nat): Date {
    if day == 0 then Date(1970, 1, 1) else Tomorrow(DateOf(day - 1))
  }

  lemma {:induction false} DateInMonth(day: nat)
    ensures var d := DateOf(day); 1 <= d.month <= 12 && 1 <= d.day <= MonthLength(d.year, d.month)
  {
    if day > 0 { DateInMonth(day - 1); }
  }

  /** Days left in the month only move the day of the month; the day after the last is the next month's first. */
  lemma {:induction false} RestOfMonth(day: nat, k: nat)
    requires var d := DateOf(day); d.day + k <= MonthLength(d.year, d.month)
    ensures var d := DateOf(day); DateOf(day + k) == Date(d.year, d.month, d.day + k)
  {
    if k > 0 { RestOfMonth(day, k - 1); }
  }

  function FirstDayOfNextMonth(day: nat): nat {
    var d := DateOf(day);
    DateInMonth(day);
    day + (MonthLength(d.year, d.month) - d.day) + 1
  }

  lemma NextMonthStarts(day: nat)
    ensures DateOf(FirstDayOfNextMonth(day)) == FirstOfNext(DateOf(day))
  {
    var d := DateOf(day);
    DateInMonth(day);
    var last := day + (MonthLength(d.year, d.month) - d.day);
    RestOfMonth(day, last - day);
    assert DateOf(last + 1) == Tomorrow(DateOf(last));
  }

  lemma SameMonth(day: nat, e: nat)
    requires day <= e < FirstDayOfNextMonth(day)
    ensures DateOf(e).month == DateOf(day).month
  {
    DateInMonth(day);
    RestOfMonth(day, e - day);
  }

  /* The calendar is the Gregorian one: a date's day can be counted. */

  /** Leap days in the years before this one, counting from the year 1. */
  function LeapDaysBefore(year: nat): int
    requires year > 0
  {
    (year - 1) / 4 - (year - 1) / 100 + (year - 1) / 400
  }

  /** Days from the first of January to the first of this month, in a year that is not a leap year. */
  function DaysBefore(month: nat): nat
    requires 1 <= month <= 12
  {
    [0, 31, 59, 90, 120, 151, 181, 212, 243, 273, 304, 334][month - 1]
  }

  function LeapYear(year: nat): bool { LeapDaysBefore(year + 1) > if year == 0 then 0 else LeapDaysBefore(year) }

  /** Days from the first of January 1970 to the first of this month. */
  function DayNumber(year: nat, month: nat): int
    requires year >= 1970 && 1 <= month <= 12
  {
    365 * (year - 1970) + (LeapDaysBefore(year) - LeapDaysBefore(1970)) + DaysBefore(month) + if month > 2 && LeapYear(year) then 1 else 0
  }

  lemma LeapYears(year: nat)
    requires year > 0
    ensures LeapDaysBefore(year + 1) == LeapDaysBefore(year) + if Leap(year) then 1 else 0
  {
    Fourths(year);
    Hundredths(year);
    FourHundredths(year);
  }

  lemma Fourths(n: nat)
    requires n > 0
    ensures n / 4 == (n - 1) / 4 + if n % 4 == 0 then 1 else 0
  {
    var q, r := n / 4, n % 4;
    assert n == 4 * q + r;
    assert n - 1 == if r > 0 then 4 * q + (r - 1) else 4 * (q - 1) + 3;
  }

  lemma Hundredths(n: nat)
    requires n > 0
    ensures n / 100 == (n - 1) / 100 + (if n % 100 == 0 then 1 else 0) && (n % 100 == 0 ==> n % 4 == 0)
  {
    var q, r := n / 100, n % 100;
    assert n == 100 * q + r;
    assert n - 1 == if r > 0 then 100 * q + (r - 1) else 100 * (q - 1) + 99;
    if r == 0 { assert n == 4 * (25 * q); }
  }

  lemma FourHundredths(n: nat)
    requires n > 0
    ensures n / 400 == (n - 1) / 400 + (if n % 400 == 0 then 1 else 0) && (n % 400 == 0 ==> n % 100 == 0)
  {
    var q, r := n / 400, n % 400;
    assert n == 400 * q + r;
    assert n - 1 == if r > 0 then 400 * q + (r - 1) else 400 * (q - 1) + 399;
    if r == 0 { assert n == 100 * (4 * q); }
  }

  lemma MonthsCount(year: nat, month: nat)
    requires year >= 1970 && 1 <= month <= 12
    ensures var next := if month < 12 then DayNumber(year, month + 1) else DayNumber(year + 1, 1);
      next == DayNumber(year, month) + MonthLength(year, month)
  {
    LeapYears(year);
  }

  lemma {:induction false} FirstOfMonth(year: nat, month: nat)
    requires year >= 1970 && 1 <= month <= 12
    ensures DayNumber(year, month) >= 0 && DateOf(DayNumber(year, month)) == Date(year, month, 1)
    decreases year, month
  {
    if year > 1970 || month > 1 {
      var y, m := if month > 1 then year else year - 1, if month > 1 then month - 1 else 12;
      FirstOfMonth(y, m);
      MonthsCount(y, m);
      NextMonthStarts(DayNumber(y, m));
    }
  }

  /** Every date from 1970 on is found at the day counted for it. */
  lemma DateIsCounted(year: nat, month: nat, day: nat)
    requires year >= 1970 && 1 <= month <= 12 && 1 <= day <= MonthLength(year, month)
    ensures DayNumber(year, month) >= 0 && DateOf(DayNumber(year, month) + (day - 1)) == Date(year, month, day)
  {
    FirstOfMonth(year, month);
    RestOfMonth(DayNumber(year, month), day - 1);
  }

  /* ---- Matching one minute ---- */

  datatype Spec = Spec(minutes: set<nat>, hours: set<nat>, daysOfMonth: set<nat>, months: set<nat>, daysOfWeek: set<nat>,
                       domRestricted: bool, dowRestricted: bool)

  function DayOf(t: nat): nat { t / 1440 }
  function HourOf(t: nat): nat { t / 60 % 24 }
  function MonthOf(t: nat): nat { DateOf(DayOf(t)).month }
  /** 1970 began on a Thursday; Sunday is 0. */
  function WeekdayOf(t: nat): nat { (DayOf(t) + 4) % 7 }

  /** t counts whole minutes. */
  predicate Matches(spec: Spec, t: nat) {
    && t % 60 in spec.minutes
    && HourOf(t) in spec.hours
    && MonthOf(t) in spec.months
    && var dom := DateOf(DayOf(t)).day in spec.daysOfMonth;
       var dow := WeekdayOf(t) in spec.daysOfWeek;
       if spec.domRestricted && spec.dowRestricted then dom || dow
       else if spec.domRestricted then dom
       else if spec.dowRestricted then dow
       else true
  }

  /** The instants a schedule names. */
  predicate Slot(spec: Spec, ms: nat) { ms % MINUTE == 0 && Matches(spec, ms / MINUTE) }

  /**
   * Which instants those are: whole minutes whose minute, hour and month are
   * named, on a day of the month named where days of the month are restricted,
   * on a day of the week named where those are, and where both are on either.
   */
  lemma SlotIs(spec: Spec, ms: nat)
    ensures Slot(spec, ms) <==>
      var day := ms / 86_400_000;
      var dom, dow := DateOf(day).day in spec.daysOfMonth, (day + 4) % 7 in spec.daysOfWeek;
      && ms % 60_000 == 0 && ms / 60_000 % 60 in spec.minutes && ms / 3_600_000 % 24 in spec.hours
      && DateOf(day).month in spec.months
      && (spec.domRestricted && spec.dowRestricted ==> dom || dow)
      && (spec.domRestricted && !spec.dowRestricted ==> dom)
      && (spec.dowRestricted && !spec.domRestricted ==> dow)
  {
    assert ms / 60_000 / 1440 == ms / 86_400_000;
    assert ms / 60_000 / 60 == ms / 3_600_000;
  }

  /** r is the first slot strictly after an instant; None is a schedule that does not come round within the horizon. */
  ghost predicate IsNext(spec: Spec, after: nat, r: Option<nat>) {
    match r
    case Some(ms) => after < ms <= after + HORIZON && Slot(spec, ms) && forall t :: after < t < ms ==> !Slot(spec, t)
    case None => forall t :: after < t <= after + HORIZON ==> !Slot(spec, t)
  }

  lemma NextUnique(spec: Spec, after: nat, r: Option<nat>, q: Option<nat>)
    requires IsNext(spec, after, r) && IsNext(spec, after, q)
    ensures r == q
  {
    if r.Some? && q.Some? {
      assert !(r.value < q.value) && !(q.value < r.value);
    }
  }

  function NextMonth(t: nat): nat { FirstDayOfNextMonth(DayOf(t)) * 1440 }
  function NextHour(t: nat): nat { (t / 60 + 1) * 60 }

  lemma MonthSkips(spec: Spec, t: nat)
    requires MonthOf(t) !in spec.months
    ensures t < NextMonth(t) && forall u :: t <= u < NextMonth(t) ==> !Matches(spec, u)
  {
    var day := DayOf(t);
    DateInMonth(day);
    assert t < (day + 1) * 1440;
    forall u | t <= u < NextMonth(t) ensures !Matches(spec, u) {
      DaysBetween(t, u, FirstDayOfNextMonth(day));
      SameMonth(day, DayOf(u));
    }
  }

  lemma DaysBetween(t: nat, u: nat, end: nat)
    requires t <= u < end * 1440
    ensures DayOf(t) <= DayOf(u) < end
  {
  }

  lemma SameHour(t: nat, u: nat)
    requires t <= u < NextHour(t)
    ensures HourOf(u) == HourOf(t)
  {
    assert u / 60 == t / 60;
  }

  lemma HourSkips(spec: Spec, t: nat)
    requires HourOf(t) !in spec.hours
    ensures t < NextHour(t) && forall u :: t <= u < NextHour(t) ==> !Matches(spec, u)
  {
    forall u | t <= u < NextHour(t) ensures !Matches(spec, u) {
      SameHour(t, u);
    }
  }

  method NextRun(spec: Spec, after: nat) returns (r: Option<nat>)
    ensures IsNext(spec, after, r)
  {
    var cursor := after / MINUTE + 1;
    var limit := after + HORIZON;
    while cursor * MINUTE <= limit
      invariant forall u :: after / MINUTE < u < cursor ==> !Matches(spec, u)
      invariant cursor > after / MINUTE
      decreases limit - cursor * MINUTE
    {
      if Matches(spec, cursor) {
        FirstMinuteFirstSlot(spec, after, cursor);
        return Some(cursor * MINUTE);
      }
      if MonthOf(cursor) !in spec.months {
        MonthSkips(spec, cursor);
        cursor := NextMonth(cursor);
      } else if HourOf(cursor) !in spec.hours {
        HourSkips(spec, cursor);
        cursor := NextHour(cursor);
      } else {
        cursor := cursor + 1;
      }
    }
    NoMinuteNoSlot(spec, after, cursor);
    r := None;
  }

  lemma NoMinuteNoSlot(spec: Spec, after: nat, cursor: nat)
    requires forall u :: after / MINUTE < u < cursor ==> !Matches(spec, u)
    ensures forall t :: after < t < cursor * MINUTE ==> !Slot(spec, t)
  {
    forall t | after < t < cursor * MINUTE && t % MINUTE == 0 ensures !Slot(spec, t) {
      var u := t / MINUTE;
      assert t == u * MINUTE;
      assert after / MINUTE < u < cursor;
    }
  }

  lemma FirstMinuteFirstSlot(spec: Spec, after: nat, cursor: nat)
    requires cursor > after / MINUTE && cursor * MINUTE <= after + HORIZON && Matches(spec, cursor)
    requires forall u :: after / MINUTE < u < cursor ==> !Matches(spec, u)
    ensures IsNext(spec, after, Some(cursor * MINUTE))
  {
    NoMinuteNoSlot(spec, after, cursor);
    assert cursor * MINUTE % MINUTE == 0 && cursor * MINUTE / MINUTE == cursor;
  }

  /** An instant is due exactly when a slot lies after the last run and no later than now. */
  lemma DueMeansSlot(spec: Spec, last: nat, r: Option<nat>, now: nat)
    requires IsNext(spec, last, r)
    ensures (r.Some? && r.value <= now) <==> exists t :: last < t <= now && t <= last + HORIZON && Slot(spec, t)
  {
  }
}
