/**
 * Calendar dates as Python's `datetime.date` sees them: a date is its
 * proleptic Gregorian ordinal (`date.toordinal()`), 0001-01-01 being day 1
 * and a Monday, 9999-12-31 the last representable day. `date + timedelta`
 * is ordinal addition and raises `OverflowError` outside that range.
 */
module Calendar {
  import opened Text

  const MinOrdinal: int := 1
  /** `date(9999, 12, 31).toordinal()`, a Friday. */
  const MaxOrdinal: int := 3652059

  type Date = d: int | MinOrdinal <= d <= MaxOrdinal witness MinOrdinal

  /** `date.weekday()`: Monday is 0, Sunday is 6. */
  function Weekday(d: Date): (w: int)
    ensures 0 <= w < 7
    ensures (d - w) % 7 == 1
  {
    (d + 6) % 7
  }

  /** `d + timedelta(days=n)`, `None` where Python raises `OverflowError`. */
  function AddDays(d: Date, n: int): (r: Option<Date>)
    ensures r.Some? <==> MinOrdinal <= d + n <= MaxOrdinal
    ensures r.Some? ==> r.value - d == n
  {
    if MinOrdinal <= d + n <= MaxOrdinal then Some(d + n) else None
  }

  /** `today - timedelta(days=today.weekday())`: the Monday of the week holding `today`. */
  function StartOfWeek(today: Date): (s: Date)
    ensures Weekday(s) == 0
    ensures s <= today <= s + 6
  {
    today - Weekday(today)
  }

  /** A Monday at most six days before `today` is the start of its week: the window is unique. */
  lemma StartOfWeekUnique(today: Date, s: Date)
    requires Weekday(s) == 0 && s <= today <= s + 6
    ensures s == StartOfWeek(today)
  {
    var t := StartOfWeek(today);
    assert (s - t) % 7 == 0;
    assert -6 <= s - t <= 6;
  }

  /**
   * `[start_of_week + timedelta(days=i) for i in range(7)]`: the seven days
   * Monday to Sunday of the week holding `today`; `None` where one of them
   * is past 9999-12-31.
   */
  function WeekDays(today: Date): (r: Option<seq<Date>>)
    ensures r.Some? <==> StartOfWeek(today) + 6 <= MaxOrdinal
    ensures r.Some? ==> |r.value| == 7
    ensures r.Some? ==> forall i :: 0 <= i < 7 ==> r.value[i] as int - r.value[0] as int == i
    ensures r.Some? ==> Weekday(r.value[0]) == 0 && Weekday(r.value[6]) == 6
    ensures r.Some? ==> today in r.value
  {
    var start := StartOfWeek(today);
    if start + 6 <= MaxOrdinal then
      var days := seq(7, i requires 0 <= i < 7 => (start + i) as Date);
      assert days[today - start] == today;
      Some(days)
    else
      None
  }

  /** `start_of_week + timedelta(days=6)`: the Sunday of the week holding `today`. */
  function EndOfWeek(today: Date): (r: Option<Date>)
    ensures r.Some? <==> WeekDays(today).Some?
    ensures r.Some? ==> r.value == WeekDays(today).value[6]
    ensures r.Some? ==> Weekday(r.value) == 6 && r.value - StartOfWeek(today) == 6
  {
    AddDays(StartOfWeek(today), 6)
  }

  /** Only the last five days of the calendar (Monday 9999-12-27 to Friday 9999-12-31) have no full week. */
  lemma WeekOverflowsOnlyAtTheEnd(today: Date)
    ensures WeekDays(today).None? <==> today >= MaxOrdinal - 4
  {
    assert Weekday(MaxOrdinal) == 4;
    if today >= MaxOrdinal - 4 {
      StartOfWeekUnique(today, MaxOrdinal - 4);
    }
  }
}
