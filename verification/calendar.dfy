/** Calendar days in the proleptic Gregorian calendar, the one-month step
    back that `date.setMonth(date.getMonth() - 1)` performs, and the two
    ways the downloaders print a day: the date part of
    `Date.prototype.toISOString()` and the `${year}-${MM}-${DD}` template.
    Three reads its days at 12:00 UTC and steps them in local time; with a
    host offset under twelve hours the local and the UTC calendar day of
    those times coincide, so one calendar day stands for both. */
module Calendar {
  import opened Values
  import opened Text

  /** A calendar day; `month` counts from 1 (JavaScript's `getMonth() + 1`). */
  datatype Date = Date(year: int, month: int, day: int)

  predicate IsLeapYear(y: int)
  {
    y % 4 == 0 && (y % 100 != 0 || y % 400 == 0)
  }

  function DaysInMonth(y: int, m: int): (n: int)
    requires 1 <= m <= 12
    ensures 28 <= n <= 31
  {
    if m == 2 then (if IsLeapYear(y) then 29 else 28)
    else if m == 4 || m == 6 || m == 9 || m == 11 then 30
    else 31
  }

  predicate Valid(d: Date)
  {
    1 <= d.month <= 12 && 1 <= d.day <= DaysInMonth(d.year, d.month)
  }

  /** A day that exists in the calendar. */
  type CalendarDay = d: Date | Valid(d) witness Date(1970, 1, 1)

  /** `a` is a strictly earlier day than `b`. */
  predicate Before(a: Date, b: Date)
  {
    a.year < b.year
    || (a.year == b.year && (a.month < b.month || (a.month == b.month && a.day < b.day)))
  }

  lemma BeforeTransitive(a: Date, b: Date, c: Date)
    requires Before(a, b) && Before(b, c)
    ensures Before(a, c)
  {
  }

  // ---------------------------------------------------------------------
  // Day numbers: an independent count of days, used to state what
  // JavaScript's MakeDay computes.

  function DaysInYear(y: int): int
  {
    if IsLeapYear(y) then 366 else 365
  }

  /** Days from 0000-01-01 to the first day of year `y` (negative before it). */
  function YearStart(y: int): int
    decreases if y < 0 then -y else y
  {
    if y == 0 then 0
    else if y > 0 then YearStart(y - 1) + DaysInYear(y - 1)
    else YearStart(y + 1) - DaysInYear(y)
  }

  /** Days in year `y` before the first day of month `m`. */
  function DaysBeforeMonth(y: int, m: int): int
    requires 1 <= m <= 12
  {
    if m == 1 then 0 else DaysBeforeMonth(y, m - 1) + DaysInMonth(y, m - 1)
  }

  /** The position of a day on a single count of days. */
  function DayNumber(d: Date): int
    requires 1 <= d.month <= 12
  {
    YearStart(d.year) + DaysBeforeMonth(d.year, d.month) + d.day - 1
  }

  /** ECMAScript's MakeDay(year, month, date) on this count of days: the
      month is zero-based and may lie outside 0..11 (it carries into the
      year with floor division), and the day may run past the month's end. */
  function MakeDay(year: int, month0: int, date: int): int
  {
    var y := year + month0 / 12;
    var m := month0 % 12;
    YearStart(y) + DaysBeforeMonth(y, m + 1) + date - 1
  }

  lemma YearStartNext(y: int)
    ensures YearStart(y + 1) == YearStart(y) + DaysInYear(y)
  {
  }

  lemma DaysBeforeDecember(y: int)
    ensures DaysBeforeMonth(y, 12) + 31 == DaysInYear(y)
  {
    var f := DaysInMonth(y, 2);
    assert DaysBeforeMonth(y, 2) == 31;
    assert DaysBeforeMonth(y, 3) == 31 + f;
    assert DaysBeforeMonth(y, 4) == 62 + f;
    assert DaysBeforeMonth(y, 5) == 92 + f;
    assert DaysBeforeMonth(y, 6) == 123 + f;
    assert DaysBeforeMonth(y, 7) == 153 + f;
    assert DaysBeforeMonth(y, 8) == 184 + f;
    assert DaysBeforeMonth(y, 9) == 215 + f;
    assert DaysBeforeMonth(y, 10) == 245 + f;
    assert DaysBeforeMonth(y, 11) == 276 + f;
    assert DaysBeforeMonth(y, 12) == 306 + f;
  }

  lemma {:induction false} DaysBeforeMonthGrows(y: int, m: int, n: int)
    requires 1 <= m <= n <= 12
    ensures DaysBeforeMonth(y, m) + (if m < n then DaysInMonth(y, m) else 0) <= DaysBeforeMonth(y, n)
    decreases n - m
  {
    if m < n {
      DaysBeforeMonthGrows(y, m + 1, n);
    }
  }

  lemma {:induction false} YearStartGrows(a: int, b: int)
    requires a < b
    ensures YearStart(a) + DaysInYear(a) <= YearStart(b)
    decreases b - a
  {
    YearStartNext(a);
    if a + 1 < b {
      YearStartGrows(a + 1, b);
    }
  }

  /** The number of days before year `y`, counted by the leap-year rule in
      closed form. */
  function YearStartFormula(y: int): int
  {
    365 * y + (y + 3) / 4 - (y + 99) / 100 + (y + 399) / 400
  }

  lemma Step4(y: int)
    ensures (y + 4) / 4 - (y + 3) / 4 == if y % 4 == 0 then 1 else 0
  {
  }

  lemma Step100(y: int)
    ensures (y + 100) / 100 - (y + 99) / 100 == if y % 100 == 0 then 1 else 0
  {
  }

  lemma Step400(y: int)
    ensures (y + 400) / 400 - (y + 399) / 400 == if y % 400 == 0 then 1 else 0
  {
  }

  lemma FormulaNext(y: int)
    ensures YearStartFormula(y + 1) == YearStartFormula(y) + DaysInYear(y)
  {
    Step4(y);
    Step100(y);
    Step400(y);
    if y % 400 == 0 {
      Divides400(y);
    } else if y % 100 == 0 {
      Divides100(y);
    }
  }

  lemma Divides400(y: int)
    requires y % 400 == 0
    ensures y % 100 == 0 && y % 4 == 0
  {
    assert y == 400 * (y / 400);
  }

  lemma Divides100(y: int)
    requires y % 100 == 0
    ensures y % 4 == 0
  {
    assert y == 100 * (y / 100);
  }

  /** The recursive count of days and the closed form agree. */
  lemma {:induction false} YearStartClosed(y: int)
    ensures YearStart(y) == YearStartFormula(y)
    decreases if y < 0 then -y else y
  {
    if y > 0 {
      YearStartClosed(y - 1);
      FormulaNext(y - 1);
    } else if y < 0 {
      YearStartClosed(y + 1);
      FormulaNext(y);
    }
  }

  /** The day of a valid date falls inside its own year. */
  lemma DayNumberInYear(d: Date)
    requires Valid(d)
    ensures YearStart(d.year) <= DayNumber(d) < YearStart(d.year) + DaysInYear(d.year)
  {
    DaysBeforeMonthGrows(d.year, 1, d.month);
    DaysBeforeMonthGrows(d.year, d.month, 12);
    DaysBeforeDecember(d.year);
  }

  // ---------------------------------------------------------------------
  // The days a JavaScript Date can hold.

  const MsPerDay: int := 86400000

  /** The largest magnitude TimeClip lets a time value have, in ms:
      10^8 days either side of the epoch. */
  const MaxTimeValue: int := 8640000000000000

  /** The day number of 1 January 1970, the day of time value 0. */
  const EpochDay: int := 719528

  lemma EpochDayIsNewYear1970()
    ensures DayNumber(Date(1970, 1, 1)) == EpochDay
  {
    YearStartClosed(1970);
  }

  /** The time value of 12:00 UTC on `d`. */
  function NoonTimeValue(d: Date): int
    requires 1 <= d.month <= 12
  {
    (DayNumber(d) - EpochDay) * MsPerDay + MsPerDay / 2
  }

  /** A Date can hold 12:00 UTC on `d`: TimeClip keeps a time value whose
      magnitude is at most 8.64 * 10^15 ms and makes any other one NaN,
      an Invalid Date. */
  predicate InTimeRange(d: Date)
    requires 1 <= d.month <= 12
  {
    -MaxTimeValue <= NoonTimeValue(d) <= MaxTimeValue
  }

  /** The range is the 2 * 10^8 days from 10^8 days before the epoch. */
  lemma TimeRangeDays(d: Date)
    requires 1 <= d.month <= 12
    ensures InTimeRange(d) <==> -100000000 <= DayNumber(d) - EpochDay < 100000000
  {
  }

  /** The first and last days a Date holds at noon: 20 April 271822 BC
      (year -271821) and 12 September 275760. */
  lemma TimeRangeEnds()
    ensures InTimeRange(Date(-271821, 4, 20)) && !InTimeRange(Date(-271821, 4, 19))
    ensures InTimeRange(Date(275760, 9, 12)) && !InTimeRange(Date(275760, 9, 13))
  {
    FirstHeldDay();
    LastHeldDay();
  }

  lemma FirstHeldDay()
    ensures InTimeRange(Date(-271821, 4, 20)) && !InTimeRange(Date(-271821, 4, 19))
  {
    YearStartClosed(-271821);
    assert DaysBeforeMonth(-271821, 4) == 90;
  }

  lemma LastHeldDay()
    ensures InTimeRange(Date(275760, 9, 12)) && !InTimeRange(Date(275760, 9, 13))
  {
    YearStartClosed(275760);
    assert DaysBeforeMonth(275760, 9) == 244;
  }

  /** Every day in range has a year of at most six digits; every day of
      the years strictly between the end years is in range. */
  lemma TimeRangeYears(d: Date)
    requires Valid(d)
    ensures InTimeRange(d) ==> -271821 <= d.year <= 275760
    ensures -271821 < d.year < 275760 ==> InTimeRange(d)
  {
    DayNumberInYear(d);
    YearStartClosed(-271821);
    YearStartClosed(-271820);
    YearStartClosed(275760);
    YearStartClosed(275761);
    if d.year > 275760 {
      YearStartGrows(275760, d.year);
    } else if d.year < -271821 {
      YearStartGrows(d.year, -271821);
    } else if -271821 < d.year < 275760 {
      YearStartGrows(-271820, d.year + 1);
      if d.year > -271820 {
        YearStartGrows(-271820, d.year);
      }
      YearStartGrows(d.year, 275760);
    }
  }

  /** The count of days orders valid dates exactly as the calendar does. */
  lemma DayNumberOrder(a: Date, b: Date)
    requires Valid(a) && Valid(b)
    ensures Before(a, b) <==> DayNumber(a) < DayNumber(b)
    ensures a == b <==> DayNumber(a) == DayNumber(b)
  {
    DayNumberInYear(a);
    DayNumberInYear(b);
    if a.year < b.year {
      YearStartGrows(a.year, b.year);
    } else if b.year < a.year {
      YearStartGrows(b.year, a.year);
    } else if a.month < b.month {
      DaysBeforeMonthGrows(a.year, a.month, b.month);
    } else if b.month < a.month {
      DaysBeforeMonthGrows(a.year, b.month, a.month);
    }
  }

  // ---------------------------------------------------------------------
  // One calendar month back.

  /** Year and month of the month before `d`'s month. */
  function PreviousMonth(d: Date): (r: Date)
    requires 1 <= d.month <= 12
    ensures 1 <= r.month <= 12
    ensures 12 * r.year + r.month + 1 == 12 * d.year + d.month
  {
    if d.month == 1 then Date(d.year - 1, 12, 1) else Date(d.year, d.month - 1, 1)
  }

  /** `date.setMonth(date.getMonth() - 1)` on a day read at 12:00 UTC: the
      day of the month is kept when the earlier month has it, and otherwise
      runs over into the following month; January borrows from the year. */
  function StepBackMonth(d: Date): (r: Date)
    requires Valid(d)
    ensures Valid(r)
    ensures Before(r, d) && d.year - 1 <= r.year
  {
    var p := PreviousMonth(d);
    var n := DaysInMonth(p.year, p.month);
    if d.month == 1 then
      Date(p.year, p.month, d.day)
    else if d.day <= n then
      Date(p.year, p.month, d.day)
    else
      Date(d.year, d.month, d.day - n)
  }

  /** The step back is ECMAScript's MakeDay with the zero-based month
      lowered by one and the day of the month unchanged. */
  lemma StepBackMonthIsMakeDay(d: Date)
    requires Valid(d)
    ensures DayNumber(StepBackMonth(d)) == MakeDay(d.year, (d.month - 1) - 1, d.day)
  {
    var month0 := d.month - 2;
    if d.month == 1 {
      assert month0 / 12 == -1 && month0 % 12 == 11;
      assert MakeDay(d.year, month0, d.day) == YearStart(d.year - 1) + DaysBeforeMonth(d.year - 1, 12) + d.day - 1;
      assert StepBackMonth(d) == Date(d.year - 1, 12, d.day);
    } else {
      assert month0 / 12 == 0 && month0 % 12 == month0;
      assert MakeDay(d.year, month0, d.day) == YearStart(d.year) + DaysBeforeMonth(d.year, d.month - 1) + d.day - 1;
      var n := DaysInMonth(d.year, d.month - 1);
      if d.day <= n {
        assert StepBackMonth(d) == Date(d.year, d.month - 1, d.day);
      } else {
        assert StepBackMonth(d) == Date(d.year, d.month, d.day - n);
        assert DaysBeforeMonth(d.year, d.month) == DaysBeforeMonth(d.year, d.month - 1) + n;
      }
    }
  }

  /** The step back keeps the day when the earlier month has it and
      otherwise lands in the same month, and in either case moves back
      exactly the length of the earlier month. */
  lemma StepBackMonthShape(d: Date)
    requires Valid(d)
    ensures var p := PreviousMonth(d);
            var r := StepBackMonth(d);
            && (d.day <= DaysInMonth(p.year, p.month) ==> r == Date(p.year, p.month, d.day))
            && (d.day > DaysInMonth(p.year, p.month) ==>
                  r == Date(d.year, d.month, d.day - DaysInMonth(p.year, p.month)))
            && DayNumber(d) - DayNumber(r) == DaysInMonth(p.year, p.month)
  {
    if d.month == 1 {
      YearStartNext(d.year - 1);
      DaysBeforeDecember(d.year - 1);
    }
  }

  // ---------------------------------------------------------------------
  // Printing and reading days.

  /** A month or a day of the month as two digits, `String(n).padStart(2, '0')`. */
  function Pad2(n: nat): string
  {
    PadStart(NatToString(n), 2, '0')
  }

  lemma TwoDigits(n: nat)
    requires n < 100
    ensures var s := Pad2(n);
            |s| == 2 && AllDigits(s) && ParseNat(s) == n
  {
    assert Pow10(1) == 10 && Pow10(2) == 100;
    if n < 10 {
      NatToStringLength(n, 0);
    } else {
      NatToStringLength(n, 1);
    }
    ZeroPaddedValue(n, 2);
  }

  /** The year as `toISOString` writes it: four digits for 0..9999,
      otherwise a sign and six digits. */
  function IsoYear(y: int): string
  {
    if 0 <= y <= 9999 then PadStart(NatToString(y), 4, '0')
    else (if y < 0 then "-" else "+") + PadStart(NatToString(if y < 0 then -y else y), 6, '0')
  }

  /** `date.toISOString().split("T")[0]`. */
  function IsoDate(d: Date): string
    requires Valid(d)
  {
    IsoYear(d.year) + "-" + Pad2(d.month) + "-" + Pad2(d.day)
  }

  /** `${year}-${month}-${day}` with month and day padded to two digits
      and the year printed by `String(year)`. */
  function DashedDate(d: Date): string
    requires Valid(d)
  {
    IntToString(d.year) + "-" + Pad2(d.month) + "-" + Pad2(d.day)
  }

  /** The value of the `count` characters of `s` from position `i`, when
      they are all decimal digits. */
  function DigitRun(s: string, i: nat, count: nat): Option<nat>
    requires i + count <= |s|
    decreases count
  {
    if count == 0 then Some(0)
    else
      match DigitRun(s, i, count - 1)
      case None => None
      case Some(v) =>
        if IsDigit(s[i + count - 1]) then Some(10 * v + DigitValue(s[i + count - 1])) else None
  }

  lemma AllDigitsSnoc(w: string)
    requires |w| > 0
    ensures AllDigits(w) <==> AllDigits(w[..|w| - 1]) && IsDigit(w[|w| - 1])
  {
    if AllDigits(w[..|w| - 1]) && IsDigit(w[|w| - 1]) {
      forall j | 0 <= j < |w|
        ensures IsDigit(w[j])
      {
        if j < |w| - 1 {
          assert w[j] == w[..|w| - 1][j];
        }
      }
    }
  }

  /** A run of digits reads exactly when the slice is all digits, and then
      it reads as the slice's decimal value. */
  lemma {:induction false} DigitRunValue(s: string, i: nat, count: nat)
    requires i + count <= |s|
    ensures DigitRun(s, i, count).Some? <==> AllDigits(s[i..i + count])
    ensures DigitRun(s, i, count).Some? ==> DigitRun(s, i, count).value == ParseNat(s[i..i + count])
    decreases count
  {
    if count > 0 {
      var w := s[i..i + count];
      DigitRunValue(s, i, count - 1);
      assert w[..count - 1] == s[i..i + count - 1];
      assert w[count - 1] == s[i + count - 1];
      AllDigitsSnoc(w);
    }
  }

  /** The day that ECMAScript's MakeDay gives for a month of 1..12 and a
      day of 1..31: a day the month has is kept, and a day past the
      month's end runs over into the next month. */
  function RollOver(y: int, m: int, d: int): (r: Date)
    requires 1 <= m <= 12 && 1 <= d <= 31
    ensures Valid(r)
  {
    var n := DaysInMonth(y, m);
    if d <= n then Date(y, m, d)
    else if m == 12 then Date(y + 1, 1, d - n)
    else Date(y, m + 1, d - n)
  }

  /** The roll-over lands on the day MakeDay computes for the zero-based
      month, and leaves a day that exists unchanged. */
  lemma RollOverIsMakeDay(y: int, m: int, d: int)
    requires 1 <= m <= 12 && 1 <= d <= 31
    ensures DayNumber(RollOver(y, m, d)) == MakeDay(y, m - 1, d)
    ensures Valid(Date(y, m, d)) <==> RollOver(y, m, d) == Date(y, m, d)
  {
    assert (m - 1) / 12 == 0 && (m - 1) % 12 == m - 1;
    if d > DaysInMonth(y, m) && m == 12 {
      YearStartNext(y);
      DaysBeforeDecember(y);
    }
  }

  /** Reads `-MM-DD` at position `i`, running to the end of `s`, after an
      already-read year. Like V8's ISO reader, it checks the month against
      1..12 and the day only against 1..31, and leaves the rest to MakeDay. */
  function MonthDayAt(y: int, s: string, i: nat): (r: Option<Date>)
    ensures r.Some? ==> Valid(r.value)
  {
    if |s| == i + 6 && s[i] == '-' && s[i + 3] == '-' then
      match (DigitRun(s, i + 1, 2), DigitRun(s, i + 4, 2))
      case (Some(m), Some(d)) => if 1 <= m <= 12 && 1 <= d <= 31 then Some(RollOver(y, m, d)) else None
      case _ => None
    else
      None
  }

  /** Reads what follows an already-read year at position `i`: nothing
      (the form `YYYY`, read as 1 January), `-MM` (read as the first of
      that month) or `-MM-DD`. */
  function DateAfterYear(y: int, s: string, i: nat): (r: Option<Date>)
    requires i <= |s|
    ensures r.Some? ==> Valid(r.value)
  {
    if |s| == i then Some(Date(y, 1, 1))
    else if |s| == i + 3 && s[i] == '-' then
      match DigitRun(s, i + 1, 2)
      case Some(m) => if 1 <= m <= 12 then Some(Date(y, m, 1)) else None
      case None => None
    else
      MonthDayAt(y, s, i)
  }

  /** The day named by a text in one of ECMAScript's date-only forms:
      `YYYY`, `YYYY-MM` or `YYYY-MM-DD`, or the same with an expanded year
      `±YYYYYY` (where `-000000` is not allowed). */
  function ReadDate(s: string): (r: Option<Date>)
    ensures r.Some? ==> Valid(r.value)
  {
    if |s| > 0 && (s[0] == '+' || s[0] == '-') then
      if |s| < 7 then None
      else
        match DigitRun(s, 1, 6)
        case Some(v) =>
          if s[0] == '-' && v == 0 then None
          else DateAfterYear(if s[0] == '-' then -(v as int) else v, s, 7)
        case None => None
    else if |s| < 4 then None
    else
      match DigitRun(s, 0, 4)
      case Some(y) => DateAfterYear(y, s, 4)
      case None => None
  }

  /** The calendar day of `new Date(s + "T12:00:00Z")`; `None` is an
      Invalid Date. The text must be one of the date-only forms, and the
      day must be one a Date can hold. A day past the month's end, such
      as "2024-02-30", is read as a day of the next month. */
  function ParseIsoDate(s: string): (r: Option<Date>)
    ensures r.Some? ==> Valid(r.value) && InTimeRange(r.value)
  {
    match ReadDate(s)
    case Some(d) => if InTimeRange(d) then Some(d) else None
    case None => None
  }

  /** A text starting with the digits 2024 is read with the year 2024. */
  lemma Year2024Read(s: string)
    requires |s| >= 4 && s[0] == '2' && s[1] == '0' && s[2] == '2' && s[3] == '4'
    ensures ReadDate(s) == DateAfterYear(2024, s, 4)
  {
    assert DigitRun(s, 0, 1) == Some(2);
    assert DigitRun(s, 0, 2) == Some(20);
    assert DigitRun(s, 0, 3) == Some(202);
    assert DigitRun(s, 0, 4) == Some(2024);
  }

  /** The thirtieth of February 2024 is read as the first of March. */
  lemma RollOverExample()
    ensures ParseIsoDate("2024-02-30") == Some(Date(2024, 3, 1))
    ensures ParseIsoDate("2024-02-32") == None
  {
    FebruaryThirtieth();
    FebruaryThirtySecond();
  }

  lemma FebruaryThirtySecond()
    ensures ParseIsoDate("2024-02-32") == None
  {
    var t := "2024-02-32";
    Year2024Read(t);
    assert DigitRun(t, 5, 2) == Some(2) && DigitRun(t, 8, 2) == Some(32);
    assert MonthDayAt(2024, t, 4) == None;
  }

  lemma FebruaryThirtieth()
    ensures ParseIsoDate("2024-02-30") == Some(Date(2024, 3, 1))
  {
    var s := "2024-02-30";
    Year2024Read(s);
    assert DigitRun(s, 5, 2) == Some(2) && DigitRun(s, 8, 2) == Some(30);
    assert DaysInMonth(2024, 2) == 29;
    assert ReadDate(s) == Some(Date(2024, 3, 1));
    TimeRangeYears(Date(2024, 3, 1));
  }

  lemma FirstOfMay()
    ensures ParseIsoDate("2024-05") == Some(Date(2024, 5, 1))
  {
    var s := "2024-05";
    Year2024Read(s);
    assert DigitRun(s, 5, 2) == Some(5);
    assert ReadDate(s) == Some(Date(2024, 5, 1));
    TimeRangeYears(Date(2024, 5, 1));
  }

  /** The reduced forms name the first day: "2024-05" is 1 May 2024 and
      "2024" is 1 January 2024, while a thirteenth month is an Invalid Date. */
  lemma ReducedFormsExample()
    ensures ParseIsoDate("2024-05") == Some(Date(2024, 5, 1))
    ensures ParseIsoDate("2024") == Some(Date(2024, 1, 1))
    ensures ParseIsoDate("2024-13") == None
  {
    FirstOfMay();
    var t := "2024";
    Year2024Read(t);
    assert ReadDate(t) == Some(Date(2024, 1, 1));
    TimeRangeYears(Date(2024, 1, 1));
    var u := "2024-13";
    Year2024Read(u);
    assert DigitRun(u, 5, 2) == Some(13);
    assert ReadDate(u) == None;
  }

  /** Month and day written as two digits each behind a dash read back,
      rolled over as MakeDay does. */
  lemma MonthDayAtJoin(y: int, p: string, a: string, b: string)
    requires |a| == 2 && |b| == 2 && AllDigits(a) && AllDigits(b)
    ensures var m, d := ParseNat(a), ParseNat(b);
            MonthDayAt(y, p + "-" + a + "-" + b, |p|)
            == if 1 <= m <= 12 && 1 <= d <= 31 then Some(RollOver(y, m, d)) else None
  {
    var s := p + "-" + a + "-" + b;
    var i := |p|;
    assert s[i] == '-' && s[i + 3] == '-';
    assert s[i + 1..i + 3] == a;
    assert s[i + 4..i + 6] == b;
    TwoDigitsAt(s, i + 1, a);
    TwoDigitsAt(s, i + 4, b);
  }

  lemma TwoDigitsAt(s: string, i: nat, a: string)
    requires |a| == 2 && AllDigits(a) && i + 2 <= |s| && s[i..i + 2] == a
    ensures DigitRun(s, i, 2) == Some(ParseNat(a))
  {
    DigitRunValue(s, i, 2);
  }

  /** The month and day of a printed day read back behind any year text. */
  lemma MonthDayOf(d: Date, p: string)
    requires Valid(d)
    ensures MonthDayAt(d.year, p + ("-" + Pad2(d.month) + "-" + Pad2(d.day)), |p|) == Some(d)
  {
    TwoDigits(d.month);
    TwoDigits(d.day);
    RollOverIsMakeDay(d.year, d.month, d.day);
    MonthDayAtJoin(d.year, p, Pad2(d.month), Pad2(d.day));
    Concat5(p, "-", Pad2(d.month), "-", Pad2(d.day));
  }

  /** A year written with four or six zero-filled digits reads back. */
  lemma YearDigits(v: nat, w: nat)
    requires (w == 4 && v <= 9999) || (w == 6 && v <= 999999)
    ensures var s := PadStart(NatToString(v), w, '0');
            |s| == w && AllDigits(s) && ParseNat(s) == v
  {
    assert Pow10(1) == 10 && Pow10(2) == 100 && Pow10(3) == 1000;
    assert Pow10(4) == 10000 && Pow10(5) == 100000 && Pow10(6) == 1000000;
    if v < 10 { NatToStringLength(v, 0); }
    else if v < 100 { NatToStringLength(v, 1); }
    else if v < 1000 { NatToStringLength(v, 2); }
    else if v < 10000 { NatToStringLength(v, 3); }
    else if v < 100000 { NatToStringLength(v, 4); }
    else { NatToStringLength(v, 5); }
    ZeroPaddedValue(v, w);
  }

  /** Reading back a printed day gives the same day, for every day a
      JavaScript Date can hold. */
  lemma IsoRoundTrip(d: Date)
    requires Valid(d) && InTimeRange(d)
    ensures ParseIsoDate(IsoDate(d)) == Some(d)
  {
    TimeRangeYears(d);
    var tail := "-" + Pad2(d.month) + "-" + Pad2(d.day);
    IsoDateShape(d);
    MonthDayOf(d, IsoYear(d.year));
    if 0 <= d.year <= 9999 {
      FourDigitYearRead(d.year, tail);
    } else {
      SixDigitYearRead(d.year, tail);
    }
  }

  lemma FourDigitYearRead(y: int, tail: string)
    requires 0 <= y <= 9999 && |tail| == 6
    ensures |IsoYear(y)| == 4
    ensures ReadDate(IsoYear(y) + tail) == MonthDayAt(y, IsoYear(y) + tail, 4)
  {
    YearDigits(y, 4);
    var s := IsoYear(y) + tail;
    assert s[0..4] == IsoYear(y);
    DigitRunValue(s, 0, 4);
  }

  lemma IsoYearSixDigits(y: int)
    requires !(0 <= y <= 9999)
    ensures IsoYear(y) == [if y < 0 then '-' else '+'] + PadStart(NatToString(if y < 0 then -y else y), 6, '0')
  {
  }

  lemma SixDigitYearRead(y: int, tail: string)
    requires -999999 <= y <= 999999 && !(0 <= y <= 9999) && |tail| == 6
    ensures |IsoYear(y)| == 7
    ensures ReadDate(IsoYear(y) + tail) == MonthDayAt(y, IsoYear(y) + tail, 7)
  {
    var v: nat := if y < 0 then -y else y;
    var ys := PadStart(NatToString(v), 6, '0');
    IsoYearSixDigits(y);
    YearDigits(v, 6);
    var s := IsoYear(y) + tail;
    assert s[0] == (if y < 0 then '-' else '+');
    assert s[1..7] == ys;
    DigitRunValue(s, 1, 6);
  }

  lemma IsoDateShape(d: Date)
    requires Valid(d)
    ensures IsoDate(d) == IsoYear(d.year) + ("-" + Pad2(d.month) + "-" + Pad2(d.day))
  {
    Concat5(IsoYear(d.year), "-", Pad2(d.month), "-", Pad2(d.day));
  }

  /** For four-digit years the template form and the ISO form agree. */
  lemma DashedIsIso(d: Date)
    requires Valid(d) && 1000 <= d.year <= 9999
    ensures DashedDate(d) == IsoDate(d)
  {
    NatToStringLength(d.year, 3);
    assert IsoYear(d.year) == IntToString(d.year);
  }
}
