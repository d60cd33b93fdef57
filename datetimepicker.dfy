/** The date-and-time picker.  It shows one month as a grid of weeks that
    start on Sunday, moves between months, and keeps a selected date
    (`YYYY-MM-DD`) and a selected time (`HH:MM`).  It emits
    `date + "T" + time` once both are set.  Its state lives in a class
    whose handlers update it. */
module DateTimePicker {
  import opened Wrappers
  import opened JsText
  import Civil

  // ---- the month on view ------------------------------------------------------

  /** `getDaysInMonth`: the day before the first of the next month, read from
      `new Date(year, month + 1, 0)`. */
  function DaysInView(year: int, month: int): (n: int)
    requires 0 <= month < 12
    ensures n == Civil.DaysInMonth(year, month)
    ensures 28 <= n <= 31
    ensures month == 1 ==> (n == 29 <==> Civil.IsLeapYear(year))
  {
    var d := Civil.NewDate(year, month + 1, 0, 0);
    if month < 11 then
      Civil.NewDateDayZero(year, month + 1, 0);
      d.day
    else
      d.day
  }

  /** `getFirstDayOfMonth`: the weekday of the first of the month, 0 being Sunday. */
  function FirstDay(year: int, month: int): (w: int)
    requires 0 <= month < 12
    ensures 0 <= w < 7
    ensures w == Civil.WeekDay(Civil.DateTime(year, month, 1, 0))
  {
    Civil.WeekDay(Civil.NewDate(year, month, 1, 0))
  }

  /** The month that follows `month` of `year`, January after December. */
  function NextMonth(year: int, month: int): (r: (int, int))
    requires 0 <= month < 12
    ensures 0 <= r.1 < 12
    ensures r.0 * 12 + r.1 == year * 12 + month + 1
  {
    var d := Civil.NewDate(year, month + 1, 1, 0);
    (d.year, d.month)
  }

  /** The month that precedes `month` of `year`, December before January. */
  function PrevMonth(year: int, month: int): (r: (int, int))
    requires 0 <= month < 12
    ensures 0 <= r.1 < 12
    ensures r.0 * 12 + r.1 == year * 12 + month - 1
  {
    var d := Civil.NewDate(year, month - 1, 1, 0);
    (d.year, d.month)
  }

  /** Two year-and-month pairs with the same month count are equal. */
  lemma SameMonthCount(a: (int, int), b: (int, int))
    requires 0 <= a.1 < 12 && 0 <= b.1 < 12
    requires a.0 * 12 + a.1 == b.0 * 12 + b.1
    ensures a == b
  {
  }

  /** Moving forward a month and back again returns to the same month, across
      a year boundary too; and the other way round. */
  lemma {:induction false} NextPrev(year: int, month: int)
    requires 0 <= month < 12
    ensures var n := NextMonth(year, month); PrevMonth(n.0, n.1) == (year, month)
    ensures var p := PrevMonth(year, month); NextMonth(p.0, p.1) == (year, month)
  {
    var n := NextMonth(year, month);
    SameMonthCount(PrevMonth(n.0, n.1), (year, month));
    var p := PrevMonth(year, month);
    SameMonthCount(NextMonth(p.0, p.1), (year, month));
  }

  /** December is followed by January of the next year. */
  lemma DecemberToJanuary(year: int)
    ensures NextMonth(year, 11) == (year + 1, 0)
    ensures PrevMonth(year + 1, 0) == (year, 11)
  {
    SameMonthCount(NextMonth(year, 11), (year + 1, 0));
    SameMonthCount(PrevMonth(year + 1, 0), (year, 11));
  }

  /** Day numbers of consecutive first days of months differ by the length of the first month. */
  lemma {:induction false} FirstOfNextMonth(year: int, month: int)
    requires 0 <= month < 12
    ensures var n := NextMonth(year, month);
      Civil.DayNumber(n.0, n.1, 1) == Civil.DayNumber(year, month, 1) + Civil.DaysInMonth(year, month)
  {
    var n := NextMonth(year, month);
    if month == 11 {
      DecemberToJanuary(year);
      Civil.DecemberEnd(year);
    } else {
      SameMonthCount(n, (year, month + 1));
    }
  }

  /** Adding to a number and to its remainder leaves the same remainder. */
  lemma ModAdd(a: int, b: int)
    ensures (a % 7 + b) % 7 == (a + b) % 7
  {
    var q := a / 7;
    assert a == 7 * q + a % 7;
    assert a + b == 7 * q + (a % 7 + b);
  }

  /** The next month's grid starts where this month's last week ends. */
  lemma {:induction false} FirstDayOfNextMonth(year: int, month: int)
    requires 0 <= month < 12
    ensures var n := NextMonth(year, month);
      FirstDay(n.0, n.1) == (FirstDay(year, month) + DaysInView(year, month)) % 7
  {
    var n := NextMonth(year, month);
    FirstOfNextMonth(year, month);
    FirstDayNumber(year, month);
    FirstDayNumber(n.0, n.1);
    WeekAfter(Civil.DayNumber(year, month, 1), Civil.DaysInMonth(year, month), Civil.DayNumber(n.0, n.1, 1),
              FirstDay(year, month), FirstDay(n.0, n.1));
  }

  lemma FirstDayNumber(year: int, month: int)
    requires 0 <= month < 12
    ensures FirstDay(year, month) == (Civil.DayNumber(year, month, 1) + 4) % 7
  {
  }

  /** The weekday `b` days after day number `a`. */
  lemma WeekAfter(a: int, b: int, c: int, w1: int, w2: int)
    requires c == a + b
    requires w1 == (a + 4) % 7 && w2 == (c + 4) % 7
    ensures w2 == (w1 + b) % 7
  {
    ModAdd(a + 4, b);
  }

  /** The cells of the month grid: `firstDay` blank cells, then the days 1 to
      `daysInMonth` in order. */
  function Grid(year: int, month: int): (cells: seq<Option<int>>)
    requires 0 <= month < 12
    ensures |cells| == FirstDay(year, month) + DaysInView(year, month)
    ensures forall k | 0 <= k < FirstDay(year, month) :: cells[k].None?
    ensures forall k | FirstDay(year, month) <= k < |cells| :: cells[k] == Some(k - FirstDay(year, month) + 1)
  {
    var blank := seq(FirstDay(year, month), _ => None);
    var days := seq(DaysInView(year, month), i => Some(i + 1));
    blank + days
  }

  /** The grid fits in six rows of seven, and every day of the month appears
      in it, at the cell after the blanks and the days before it. */
  lemma GridFits(year: int, month: int)
    requires 0 <= month < 12
    ensures |Grid(year, month)| <= 42
    ensures forall d | 1 <= d <= Civil.DaysInMonth(year, month) ::
      Grid(year, month)[FirstDay(year, month) + d - 1] == Some(d)
  {
  }

  /** Each day sits in the column of its weekday. */
  lemma {:induction false} GridColumns(year: int, month: int, d: int)
    requires 0 <= month < 12 && 1 <= d <= Civil.DaysInMonth(year, month)
    ensures (FirstDay(year, month) + d - 1) % 7 == Civil.WeekDay(Civil.DateTime(year, month, d, 0))
  {
    ModAdd(Civil.DayNumber(year, month, 1) + 4, d - 1);
  }

  // ---- the emitted value --------------------------------------------------------

  /** The value passed to `onChange`: `date + "T" + time`, once both are non-empty. */
  function Emitted(date: string, time: string): (v: Option<string>)
    ensures v.Some? <==> date != [] && time != []
    ensures v.Some? ==> |v.value| == |date| + 1 + |time| && v.value[|date|] == 'T'
  {
    if date != [] && time != [] then Some(date + "T" + time) else None
  }

  /** The date part of an incoming value: the text before its first `T`, and
      empty when there is no value. */
  function InitialDate(value: string): (d: string)
    ensures 'T' !in d
    ensures value == [] ==> d == []
  {
    if value == [] then [] else Split(value, 'T')[0]
  }

  /** The time part of an incoming value: the text after its first `T` (up
      to a second one), `12:00` when there is no value.  A value without `T`
      gives an undefined time, which is written here as the empty string:
      both are falsy, and the picker only ever tests the time for truth. */
  function InitialTime(value: string): (t: string)
    ensures value == [] ==> t == "12:00"
    ensures value != [] ==> 'T' !in t
  {
    if value == [] then "12:00"
    else
      var parts := Split(value, 'T');
      if |parts| >= 2 then parts[1] else []
  }

  /** What the picker emits, handed back to it, is split into the same date and time. */
  lemma {:induction false} EmittedReadsBack(date: string, time: string)
    requires date != [] && time != []
    requires 'T' !in date && 'T' !in time
    ensures InitialDate(Emitted(date, time).value) == date
    ensures InitialTime(Emitted(date, time).value) == time
  {
    assert Join([date, time], 'T') == date + "T" + time;
    JoinSplit([date, time], 'T');
  }

  /** A value written as `date + "T" + time` is emitted again unchanged once
      its parts are read back. */
  lemma {:induction false} ValueRoundTrip(value: string)
    requires |Split(value, 'T')| == 2
    requires Split(value, 'T')[0] != [] && Split(value, 'T')[1] != []
    ensures Emitted(InitialDate(value), InitialTime(value)) == Some(value)
  {
    var parts := Split(value, 'T');
    SplitJoin(value, 'T');
    assert [parts[0], parts[1]] == parts;
    assert Join(parts, 'T') == parts[0] + "T" + parts[1];
  }

  // ---- the component state ------------------------------------------------------

  /** The picker's state: the month on view (`currentMonth`, of which only
      the year and month are read), the selected date and time, and whether
      the picker is open. */
  class Picker {
    var year: int
    var month: int
    var selectedDate: string
    var selectedTime: string
    var showPicker: bool

    ghost predicate Valid()
      reads this
    {
      0 <= month < 12
    }

    /** The initial state for `value`.  The month on view is the month of the
        value's date part when there is a value, read by `parse`, and of
        `today` otherwise. */
    constructor (value: string, parse: string -> Option<Civil.CivilDate>, today: Civil.CivilDate)
      requires value != [] ==> parse(InitialDate(value)).Some?
      ensures Valid()
      ensures var shown := if value == [] then today else parse(InitialDate(value)).value;
        year == shown.year && month == shown.month
      ensures selectedDate == InitialDate(value) && selectedTime == InitialTime(value)
      ensures !showPicker
    {
      var shown := if value == [] then today else parse(InitialDate(value)).value;
      year, month := shown.year, shown.month;
      selectedDate := InitialDate(value);
      selectedTime := InitialTime(value);
      showPicker := false;
    }

    /** What the picker emits in its current state. */
    function Value(): (v: Option<string>)
      reads this
      ensures v.Some? <==> selectedDate != [] && selectedTime != []
    {
      Emitted(selectedDate, selectedTime)
    }

    /** `handlePrevMonth`. */
    method PrevMonthClick()
      requires Valid()
      modifies this
      ensures Valid()
      ensures (year, month) == PrevMonth(old(year), old(month))
      ensures selectedDate == old(selectedDate) && selectedTime == old(selectedTime) && showPicker == old(showPicker)
    {
      var d := Civil.NewDate(year, month - 1, 1, 0);
      year, month := d.year, d.month;
    }

    /** `handleNextMonth`. */
    method NextMonthClick()
      requires Valid()
      modifies this
      ensures Valid()
      ensures (year, month) == NextMonth(old(year), old(month))
      ensures selectedDate == old(selectedDate) && selectedTime == old(selectedTime) && showPicker == old(showPicker)
    {
      var d := Civil.NewDate(year, month + 1, 1, 0);
      year, month := d.year, d.month;
    }

    /** `handleSelectDate(day)` for a day of the grid: the date part of the
        day's ISO text becomes the selected date, and the picker closes. */
    method SelectDate(day: int, iso: Civil.DateTime -> string)
      requires Valid() && 1 <= day <= DaysInView(year, month)
      modifies this
      ensures Valid()
      ensures year == old(year) && month == old(month) && selectedTime == old(selectedTime)
      ensures selectedDate == DayKey(year, month, day, iso)
      ensures !showPicker
    {
      var d := Civil.NewDate(year, month, day, 0);
      assert d == Civil.DateTime(year, month, day, 0);
      selectedDate := Split(iso(d), 'T')[0];
      showPicker := false;
    }

    /** `handleTimeChange`. */
    method TimeChange(t: string)
      modifies this
      ensures selectedTime == t
      ensures year == old(year) && month == old(month)
      ensures selectedDate == old(selectedDate) && showPicker == old(showPicker)
    {
      selectedTime := t;
    }

    /** A click on the input opens the picker. */
    method Open()
      modifies this
      ensures showPicker
      ensures year == old(year) && month == old(month)
      ensures selectedDate == old(selectedDate) && selectedTime == old(selectedTime)
    {
      showPicker := true;
    }

    /** A click outside the picker closes it. */
    method Close()
      modifies this
      ensures !showPicker
      ensures year == old(year) && month == old(month)
      ensures selectedDate == old(selectedDate) && selectedTime == old(selectedTime)
    {
      showPicker := false;
    }
  }

  /** The date part of the ISO text of a grid day, `new Date(year, month,
      day).toISOString().split('T')[0]`, as the grid compares it with the
      selected date. */
  function DayKey(year: int, month: int, day: int, iso: Civil.DateTime -> string): (key: string)
    requires 0 <= month < 12 && 1 <= day <= Civil.DaysInMonth(year, month)
    ensures 'T' !in key
  {
    Split(iso(Civil.DateTime(year, month, day, 0)), 'T')[0]
  }
}
