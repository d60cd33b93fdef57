/** The warranty column of the sale detail dialog.  A sale item's creation
    date is read leniently.  The battery's warranty months are added to it,
    with the day clamped to the end of the target month.  The result is the
    number of days left until the warranty ends, counted from `now`. */
module AtendimentoDetail {
  import opened Wrappers
  import opened JsText
  import opened JsValues
  import opened Json
  import opened Civil

  // ---- parseDateString --------------------------------------------------------

  /** The text given to the date parser.  When it has no `T` but does have
      white space, its first space becomes `T` (`"2024-01-05 10:00"` reads
      as `"2024-01-05T10:00"`). */
  function DateText(s: string): (t: string)
    ensures |t| == |s|
    ensures ('T' in s || NoSpace(s)) ==> t == s
    ensures 'T' !in s && ' ' in s ==> 'T' in t
    ensures forall k | 0 <= k < |s| :: t[k] == s[k] || (s[k] == ' ' && t[k] == 'T' && ' ' !in s[..k])
  {
    if 'T' !in s && !NoSpace(s) then
      var t := ReplaceFirst(s, ' ', 'T');
      assert ' ' in s ==> 'T' in t by {
        if ' ' in s {
          var i := IndexOf(s, ' ').value;
          assert t[i] == 'T';
        }
      }
      t
    else s
  }

  /** Normalising twice is normalising once: the first pass either leaves a `T`
      in the text or leaves the text as it was. */
  lemma DateTextIdempotent(s: string)
    ensures DateText(DateText(s)) == DateText(s)
  {
    var t := DateText(s);
    if 'T' !in s && !NoSpace(s) && ' ' !in s {
      assert t == s;
    }
  }

  /** `parseDateString(s)`: `null` for a missing or empty string.  Otherwise
      the normalised text is parsed, then parsed again with `Z` appended,
      and the first valid date is returned.  The JavaScript date grammar is
      the parameter `parse`, which gives `None` for an Invalid Date, so
      nothing here can throw. */
  function ParseDateString(s: Option<string>, parse: string -> Option<CivilDate>): (r: Option<CivilDate>)
    ensures s.None? || s.value == [] ==> r.None?
    ensures s.Some? && s.value != [] ==>
      (r.Some? <==> parse(DateText(s.value)).Some? || parse(DateText(s.value) + "Z").Some?)
    ensures s.Some? && s.value != [] && parse(DateText(s.value)).Some? ==> r == parse(DateText(s.value))
    ensures s.Some? && s.value != [] && parse(DateText(s.value)).None? ==> r == parse(DateText(s.value) + "Z")
  {
    match s
    case None => None
    case Some(text) =>
      if text == [] then None
      else
        var t := DateText(text);
        Coalesce(parse(t), parse(t + "Z"))
  }

  // ---- addMonths ------------------------------------------------------------

  function Min(a: int, b: int): int {
    if a <= b then a else b
  }

  /** The date `n` calendar months after `date`.  The month count carries
      into the year.  The day of month is the original day, or the last day
      of the target month when that month is shorter.  The time of day is
      kept. */
  function MonthsLater(date: CivilDate, n: int): (r: CivilDate)
    ensures r.year * 12 + r.month == date.year * 12 + date.month + n
    ensures r.day == Min(date.day, DaysInMonth(r.year, r.month))
    ensures r.msOfDay == date.msOfDay
  {
    var m := date.month + n;
    var y, mm := date.year + m / 12, m % 12;
    DateTime(y, mm, Min(date.day, DaysInMonth(y, mm)), date.msOfDay)
  }

  /** The date `months` after `date` when `months` may be fractional: as
      `setMonth` does, the month number plus `months` is truncated toward zero. */
  function MonthsAdded(date: CivilDate, months: real): (r: CivilDate)
    ensures months >= 0.0 ==> r == MonthsLater(date, Trunc(months))
  {
    var r := MonthsLater(date, Trunc(date.month as real + months) - date.month);
    assert months >= 0.0 ==> r == MonthsLater(date, Trunc(months)) by {
      if months >= 0.0 {
        TruncShift(date.month, months);
      }
    }
    r
  }

  /** `addMonths(date, months)`: a copy of the date is moved with
      `setMonth(getMonth() + months)`.  When its day of month then differs,
      it rolled into the following month, and `setDate(0)` takes it back to
      the last day of the month it should have landed in.  `setMonth`
      truncates its argument toward zero. */
  method AddMonths(date: CivilDate, months: real) returns (d: CivilDate)
    ensures d == MonthsAdded(date, months)
  {
    d := date;
    var day := d.day;
    var target := Trunc(d.month as real + months);
    d := SetMonth(d, target);
    SetMonthThenClamp(date, target);
    if d.day != day {
      d := SetDate(d, 0);
    }
  }

  /** The two setter calls of `AddMonths` land on the clamped date. */
  lemma SetMonthThenClamp(date: CivilDate, m: int)
    ensures var s := SetMonth(date, m);
      (if s.day == date.day then s else SetDate(s, 0)) == MonthsLater(date, m - date.month)
  {
    if date.day <= DaysInMonth(date.year + m / 12, m % 12) {
      SetMonthFits(date, m);
    } else {
      SetMonthOverflows(date, m);
    }
  }

  lemma SetMonthFits(date: CivilDate, m: int)
    requires date.day <= DaysInMonth(date.year + m / 12, m % 12)
    ensures SetMonth(date, m) == MonthsLater(date, m - date.month)
  {
  }

  /** A day past the end of the target month rolls over into the next month;
      day 0 of that month is the last day of the target month. */
  lemma SetMonthOverflows(date: CivilDate, m: int)
    requires date.day > DaysInMonth(date.year + m / 12, m % 12)
    ensures SetMonth(date, m).day != date.day
    ensures SetDate(SetMonth(date, m), 0) == MonthsLater(date, m - date.month)
  {
    var y1, m1, ms := date.year + m / 12, m % 12, date.msOfDay;
    var s := SetMonth(date, m);
    assert m1 < 11 && s == DateTime(y1, m1 + 1, date.day - DaysInMonth(y1, m1), ms) by {
      NewDateOverflow(date.year, m, date.day, ms);
    }
    var last := DateTime(y1, m1, DaysInMonth(y1, m1), ms);
    assert SetDate(s, 0) == last by {
      NewDateDayZero(y1, m1 + 1, ms);
    }
    assert MonthsLater(date, m - date.month) == last;
  }

  /** Adding no months gives the same date. */
  lemma MonthsLaterZero(date: CivilDate)
    ensures MonthsLater(date, 0) == date
  {
  }

  /** A day of month up to 28 exists in every month and is kept, as is the time of day. */
  lemma MonthsLaterEarlyDay(date: CivilDate, n: int)
    requires date.day <= 28
    ensures MonthsLater(date, n).day == date.day
    ensures MonthsLater(date, n).msOfDay == date.msOfDay
  {
  }

  /** Adding months and then going back the same number of months restores
      any date whose day exists in the target month. */
  lemma {:induction false} MonthsLaterBack(date: CivilDate, n: int)
    requires date.day <= DaysInMonth(MonthsLater(date, n).year, MonthsLater(date, n).month)
    ensures MonthsLater(MonthsLater(date, n), -n) == date
  {
    var r := MonthsLater(date, n);
    var b := MonthsLater(r, -n);
    assert b.year * 12 + b.month == date.year * 12 + date.month;
  }

  /** The clamped result agrees with a bare `setMonth` exactly when the original
      day exists in the target month. */
  lemma AgreesWithSetMonth(date: CivilDate, n: int)
    ensures SetMonth(date, date.month + n) == MonthsLater(date, n) <==>
      date.day <= DaysInMonth(MonthsLater(date, n).year, MonthsLater(date, n).month)
  {
  }

  /** January 31st, 2024 plus one month: the dialog shows February 29th, while
      a bare `setMonth` rolls over into March 2nd. */
  lemma ClampVersusRollover()
    ensures MonthsLater(DateTime(2024, 0, 31, 0), 1) == DateTime(2024, 1, 29, 0)
    ensures SetMonth(DateTime(2024, 0, 31, 0), 1) == DateTime(2024, 2, 2, 0)
  {
    assert IsLeapYear(2024);
  }

  // ---- computeWarranty ----------------------------------------------------------

  /** The nested battery of a sale item, as far as the warranty needs it. */
  datatype Bateria = Bateria(garantiaMeses: Js)

  /** A sale item as the dialog receives it: `created_at`, `createdAt`, the
      nested `bateria` and the item's own `garantia_meses`. */
  datatype SaleItem = SaleItem(
    createdAtSnake: Option<string>,
    createdAtCamel: Option<string>,
    bateria: Option<Bateria>,
    garantiaMeses: Js)

  /** What `computeWarranty` returns. */
  datatype Warranty = Warranty(remainingDays: Option<int>, expired: bool, endDate: Option<CivilDate>)

  /** `Number(bateria?.garantia_meses ?? item.garantia_meses ?? 0) || 0`. */
  function WarrantyMonths(item: SaleItem): (g: real)
    ensures item.bateria.Some? && !Nullish(item.bateria.value.garantiaMeses) ==>
      g == OrZero(ToNumber(item.bateria.value.garantiaMeses))
    ensures (item.bateria.None? || Nullish(item.bateria.value.garantiaMeses)) && !Nullish(item.garantiaMeses) ==>
      g == OrZero(ToNumber(item.garantiaMeses))
    ensures (item.bateria.None? || Nullish(item.bateria.value.garantiaMeses)) && Nullish(item.garantiaMeses) ==>
      g == 0.0
  {
    var fromBateria := if item.bateria.Some? then item.bateria.value.garantiaMeses else Undefined;
    OrZero(ToNumber(OrElse(fromBateria, OrElse(item.garantiaMeses, Num(Finite(0.0))))))
  }

  /** The creation date: `created_at`, else `createdAt`, read by `parseDateString`. */
  function CreatedDate(item: SaleItem, parse: string -> Option<CivilDate>): (r: Option<CivilDate>)
    ensures item.createdAtSnake.Some? ==> r == ParseDateString(item.createdAtSnake, parse)
    ensures item.createdAtSnake.None? ==> r == ParseDateString(item.createdAtCamel, parse)
  {
    ParseDateString(Coalesce(item.createdAtSnake, item.createdAtCamel), parse)
  }

  /** `computeWarranty(item)` at time `now` (milliseconds since the epoch). */
  function ComputeWarranty(item: SaleItem, parse: string -> Option<CivilDate>, now: int): (w: Warranty)
    ensures w.remainingDays.None? <==> CreatedDate(item, parse).None? || WarrantyMonths(item) == 0.0
    ensures w.remainingDays.None? ==> !w.expired && w.endDate.None?
    ensures w.remainingDays.Some? ==>
      var created := CreatedDate(item, parse).value;
      w.endDate == Some(MonthsAdded(created, WarrantyMonths(item)))
    ensures w.remainingDays.Some? ==>
      var left := TimeValue(w.endDate.value) - now;
      MS_PER_DAY * (w.remainingDays.value - 1) < left <= MS_PER_DAY * w.remainingDays.value
    ensures w.expired <==> w.remainingDays.Some? && w.remainingDays.value < 0
  {
    var created := CreatedDate(item, parse);
    var g := WarrantyMonths(item);
    if created.None? || g == 0.0 then Warranty(None, false, None)
    else
      var start := created.value;
      var end := MonthsAdded(start, g);
      var days := DaysUntil(TimeValue(end), now);
      Warranty(Some(days), days < 0, Some(end))
  }

  /** A warranty is expired exactly when its end lies a full day or more
      before `now`; with less than a day gone it still shows 0 days left. */
  lemma {:induction false} ExpiredIffDayPassed(item: SaleItem, parse: string -> Option<CivilDate>, now: int)
    ensures var w := ComputeWarranty(item, parse, now);
      w.expired <==> w.endDate.Some? && TimeValue(w.endDate.value) - now <= -MS_PER_DAY
  {
    var w := ComputeWarranty(item, parse, now);
    if w.remainingDays.Some? {
      var d := w.remainingDays.value;
      var left := TimeValue(w.endDate.value) - now;
      if d < 0 {
        assert MS_PER_DAY * d <= -MS_PER_DAY;
      } else {
        assert MS_PER_DAY * (d - 1) >= -MS_PER_DAY;
      }
    }
  }

  // ---- the table cell -----------------------------------------------------------

  /** The warranty cell: `N/A`, `<n> dias`, or `Expirada há <|n|> dias`. */
  function GarantiaCell(w: Warranty): (text: string)
    ensures text == "N/A" <==> w.remainingDays.None?
    ensures w.remainingDays.Some? && !w.expired ==> text == IntToString(w.remainingDays.value) + " dias"
    ensures w.remainingDays.Some? && w.expired ==> text == "Expirada há " + IntToString(Abs(w.remainingDays.value)) + " dias"
  {
    match w.remainingDays
    case None => "N/A"
    case Some(n) =>
      if !w.expired then IntToString(n) + " dias" else "Expirada há " + IntToString(Abs(n)) + " dias"
  }

  /** For a computed warranty the cell never shows a minus sign: a running
      warranty shows its days left, an expired one the whole days since it
      ended, at least one. */
  lemma CellOfWarranty(item: SaleItem, parse: string -> Option<CivilDate>, now: int)
    ensures '-' !in GarantiaCell(ComputeWarranty(item, parse, now))
    ensures var w := ComputeWarranty(item, parse, now);
      w.expired ==>
        GarantiaCell(w) == "Expirada há " + NatToString(-w.remainingDays.value) + " dias" && -w.remainingDays.value >= 1
  {
    CellOfExpiry(ComputeWarranty(item, parse, now));
  }

  /** The cell of any warranty that is expired exactly when its day count is
      negative. */
  lemma CellOfExpiry(w: Warranty)
    requires w.expired <==> w.remainingDays.Some? && w.remainingDays.value < 0
    ensures '-' !in GarantiaCell(w)
    ensures w.expired ==>
      GarantiaCell(w) == "Expirada há " + NatToString(-w.remainingDays.value) + " dias" && -w.remainingDays.value >= 1
  {
    if w.remainingDays.Some? {
      var n := w.remainingDays.value;
      var digits := NatToString(Abs(n));
      assert forall k | 0 <= k < |digits| :: digits[k] != '-';
      assert IntToString(Abs(n)) == digits;
      if !w.expired {
        assert IntToString(n) == digits;
      }
    }
  }
}
