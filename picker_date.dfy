/**
 * `PickerDate` (src/components/PickerDate.tsx): which calendar days the
 * appointment date picker refuses. Days are whole days counted from
 * 1970-01-01 (what `startOfDay` leaves of a date), so `isBefore`, `isAfter` and
 * `isSameDay` become `<`, `>` and `==` on day numbers.
 */
module PickerDate {
  import opened Wrappers

  /** `getDay()`: 0 is Sunday, 6 is Saturday; day 0 (1970-01-01) was a Thursday. */
  function Weekday(d: int): (w: nat)
    ensures w < 7
  {
    (d + 4) % 7
  }

  predicate IsWeekend(d: int) {
    Weekday(d) == 0 || Weekday(d) == 6
  }

  /** The props the predicate reads, after their defaults (`false`, `undefined`, `[]`). */
  datatype Props = Props(disableWeekends: bool, amountOfDaysToEnable: Option<int>, disabledDates: seq<int>)

  const DefaultProps: Props := Props(false, None, [])

  /** `addDays(today, amountOfDaysToEnable ?? 30)`. */
  function LastActiveDay(today: int, amountOfDaysToEnable: Option<int>): int {
    today + amountOfDaysToEnable.GetOr(30)
  }

  /** `!!amountOfDaysToEnable`: set and not zero. */
  predicate WindowEnabled(amountOfDaysToEnable: Option<int>) {
    amountOfDaysToEnable.Some? && amountOfDaysToEnable.value != 0
  }

  predicate WeekendRule(p: Props, d: int) {
    p.disableWeekends && IsWeekend(d)
  }

  predicate WindowRule(p: Props, today: int, d: int) {
    WindowEnabled(p.amountOfDaysToEnable) && (d < today || d > LastActiveDay(today, p.amountOfDaysToEnable))
  }

  /** `disabledDates.some((dd) => isSameDay(dd, d))`. */
  predicate ListedRule(p: Props, d: int) {
    exists k :: 0 <= k < |p.disabledDates| && p.disabledDates[k] == d
  }

  /** `isDateDisabled(d)` for `today = startOfDay(new Date())`. */
  predicate IsDateDisabled(p: Props, today: int, d: int) {
    WeekendRule(p, d) || WindowRule(p, today, d) || ListedRule(p, d)
  }

  /** A day is offered exactly when none of the three rules applies to it. */
  lemma EnabledIff(p: Props, today: int, d: int)
    ensures !IsDateDisabled(p, today, d) <==>
              && (!p.disableWeekends || 1 <= Weekday(d) <= 5)
              && (!WindowEnabled(p.amountOfDaysToEnable) || today <= d <= today + p.amountOfDaysToEnable.value)
              && d !in p.disabledDates
  {
  }

  /** With `disableWeekends`, every Saturday and Sunday is disabled. */
  lemma WeekendsDisabled(p: Props, today: int, d: int)
    requires p.disableWeekends && IsWeekend(d)
    ensures IsDateDisabled(p, today, d)
  {
  }

  /** The window includes both ends: today and today + N stay open, their neighbours outside close. */
  lemma WindowBoundsInclusive(p: Props, today: int)
    requires p.amountOfDaysToEnable.Some? && p.amountOfDaysToEnable.value > 0
    ensures var n := p.amountOfDaysToEnable.value;
      && !WindowRule(p, today, today) && !WindowRule(p, today, today + n)
      && IsDateDisabled(p, today, today - 1) && IsDateDisabled(p, today, today + n + 1)
  {
  }

  /** Without a non-zero amount no window applies: the `?? 30` fallback is never reached. */
  lemma NoWindowWithoutAmount(p: Props, today: int, d: int)
    requires p.amountOfDaysToEnable == None || p.amountOfDaysToEnable == Some(0)
    ensures !WindowRule(p, today, d)
    ensures p.amountOfDaysToEnable == None ==> LastActiveDay(today, p.amountOfDaysToEnable) == today + 30
  {
  }

  /** A day on the list is disabled whatever the other props say. */
  lemma ListedDisabled(p: Props, today: int, d: int)
    requires d in p.disabledDates
    ensures IsDateDisabled(p, today, d)
  {
    var k :| 0 <= k < |p.disabledDates| && p.disabledDates[k] == d;
  }

  /** With every default, no day is disabled. */
  lemma DefaultsDisableNothing(today: int, d: int)
    ensures !IsDateDisabled(DefaultProps, today, d)
  {
  }

  /** How many of the `n` days from `first` on are offered. */
  function CountEnabled(p: Props, today: int, first: int, n: nat): (c: nat)
    ensures c <= n
  {
    if n == 0 then 0
    else CountEnabled(p, today, first, n - 1) + Open(p, today, first + n - 1)
  }

  lemma {:induction false} WeekdayShift(d: int, k: nat)
    ensures Weekday(d + k) == (Weekday(d) + k) % 7
  {
  }

  /** Offered or not for one day, as 0 or 1. */
  function Open(p: Props, today: int, d: int): nat {
    if IsDateDisabled(p, today, d) then 0 else 1
  }

  /** Seven days counted one by one. */
  lemma {:induction false} CountSeven(p: Props, today: int, first: int)
    ensures CountEnabled(p, today, first, 7)
         == Open(p, today, first) + Open(p, today, first + 1) + Open(p, today, first + 2) + Open(p, today, first + 3)
          + Open(p, today, first + 4) + Open(p, today, first + 5) + Open(p, today, first + 6)
  {
    assert CountEnabled(p, today, first, 1) == Open(p, today, first);
    assert CountEnabled(p, today, first, 2) == CountEnabled(p, today, first, 1) + Open(p, today, first + 1);
    assert CountEnabled(p, today, first, 3) == CountEnabled(p, today, first, 2) + Open(p, today, first + 2);
    assert CountEnabled(p, today, first, 4) == CountEnabled(p, today, first, 3) + Open(p, today, first + 3);
    assert CountEnabled(p, today, first, 5) == CountEnabled(p, today, first, 4) + Open(p, today, first + 4);
    assert CountEnabled(p, today, first, 6) == CountEnabled(p, today, first, 5) + Open(p, today, first + 5);
  }

  /** Offered or not, by weekday alone, when only weekends are disabled. */
  function OpenOnWeekday(w: nat): nat {
    if w == 0 || w == 6 then 0 else 1
  }

  lemma {:induction false} WeekendsOnlyOpen(today: int, first: int, k: nat)
    ensures Open(Props(true, None, []), today, first + k) == OpenOnWeekday((Weekday(first) + k) % 7)
  {
    WeekdayShift(first, k);
  }

  /** Any seven consecutive weekdays hold two weekend days. */
  lemma WeekSum(w: nat)
    requires w < 7
    ensures OpenOnWeekday(w) + OpenOnWeekday((w + 1) % 7) + OpenOnWeekday((w + 2) % 7) + OpenOnWeekday((w + 3) % 7)
          + OpenOnWeekday((w + 4) % 7) + OpenOnWeekday((w + 5) % 7) + OpenOnWeekday((w + 6) % 7) == 5
  {
  }

  /** Disabling weekends alone leaves five bookable days in every run of seven. */
  lemma {:induction false} FiveDaysAWeek(today: int, first: int)
    ensures CountEnabled(Props(true, None, []), today, first, 7) == 5
  {
    CountSeven(Props(true, None, []), today, first);
    WeekendsOnlyOpen(today, first, 0);
    WeekendsOnlyOpen(today, first, 1);
    WeekendsOnlyOpen(today, first, 2);
    WeekendsOnlyOpen(today, first, 3);
    WeekendsOnlyOpen(today, first, 4);
    WeekendsOnlyOpen(today, first, 5);
    WeekendsOnlyOpen(today, first, 6);
    WeekSum(Weekday(first));
  }

  /** A window of N days with nothing else set offers exactly the N + 1 days from today to today + N. */
  lemma {:induction false} WindowOffersDays(today: int, n: nat, k: nat)
    requires n > 0 && k <= n + 1
    ensures CountEnabled(Props(false, Some(n), []), today, today, k) == k
  {
    if k > 0 {
      WindowOffersDays(today, n, k - 1);
    }
  }
}
