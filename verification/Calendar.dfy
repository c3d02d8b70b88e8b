/** The calendar arithmetic of Go's time package that the backup gap finder relies on.

    A date is a day number in one fixed-offset zone, day 0 being Thursday 1 January 1970.
    The proleptic Gregorian year of a day is computed in cycles of 400, 100, 4 and 1 years,
    as time.Date does, and is related here to the leap-year rule. */
module Calendar {

  predicate IsLeap(y: int) {
    y % 4 == 0 && (y % 100 != 0 || y % 400 == 0)
  }

  function YearLength(y: int): int {
    if IsLeap(y) then 366 else 365
  }

  /** Day number of 1 January of year y. */
  function NewYear(y: int): int {
    365 * (y - 1) + (y - 1) / 4 - (y - 1) / 100 + (y - 1) / 400 - 719162
  }

  /** Year of a day number, by cycles. */
  function YearOf(day: int): int {
    var n := day + 719162;
    var n400, r400 := n / 146097, n % 146097;
    var n100 := if r400 / 36524 == 4 then 3 else r400 / 36524;
    var r100 := r400 - 36524 * n100;
    var n4, r4 := r100 / 1461, r100 % 1461;
    var n1 := if r4 / 365 == 4 then 3 else r4 / 365;
    400 * n400 + 100 * n100 + 4 * n4 + n1 + 1
  }

  /** Days of a year before the first of month m (1 to 13). */
  function DaysBeforeMonth(m: int, leap: bool): int
    requires 1 <= m <= 13
  {
    [0, 31, 59, 90, 120, 151, 181, 212, 243, 273, 304, 334, 365][m - 1] + if leap && m > 2 then 1 else 0
  }

  /** Months are numbered consecutively: 12 * year + month - 1. Day number of the first of such a month. */
  function MonthStart(month: int): int {
    NewYear(month / 12) + DaysBeforeMonth(month % 12 + 1, IsLeap(month / 12))
  }

  function MonthLength(month: int): int {
    MonthStart(month + 1) - MonthStart(month)
  }

  /** Month of a year (1 to 12) that holds the day at offset yday. */
  function MonthInYear(yday: int, leap: bool): (m: int)
    ensures 1 <= m <= 12
  {
    var d := if leap && yday >= 60 then yday - 1 else yday;
    if leap && yday == 59 then 2
    else if d < 31 then 1 else if d < 59 then 2 else if d < 90 then 3 else if d < 120 then 4
    else if d < 151 then 5 else if d < 181 then 6 else if d < 212 then 7 else if d < 243 then 8
    else if d < 273 then 9 else if d < 304 then 10 else if d < 334 then 11 else 12
  }

  /** The consecutive month number of a day. */
  function MonthOf(day: int): int {
    12 * YearOf(day) + MonthInYear(day - NewYear(YearOf(day)), IsLeap(YearOf(day))) - 1
  }

  function DayOfMonth(day: int): int {
    day - MonthStart(MonthOf(day)) + 1
  }

  /** Time.AddDate for months and days: the day of the month is kept and an overflow runs on. */
  function AddDate(day: int, months: int, days: int): int {
    MonthStart(MonthOf(day) + months) + DayOfMonth(day) + days - 1
  }

  datatype Date = Date(year: int, month: int, day: int)

  /** Year, month and day of the month: what Format("2006-01-02") prints. */
  function DateOf(day: int): Date {
    Date(MonthOf(day) / 12, MonthOf(day) % 12 + 1, DayOfMonth(day))
  }

  /** Weeks start on Monday and are numbered consecutively; week w has its Thursday on day 7 * w. */
  function WeekOf(day: int): int {
    (day + 3) / 7
  }

  datatype IsoWeek = IsoWeek(year: int, week: int)

  /** Time.ISOWeek: the year is that of the week's Thursday, the week counts Thursdays of that year. */
  function IsoWeekOf(day: int): IsoWeek {
    IsoWeekAt(WeekOf(day))
  }

  function IsoWeekAt(week: int): IsoWeek {
    var thursday := 7 * week;
    IsoWeek(YearOf(thursday), (thursday - NewYear(YearOf(thursday))) / 7 + 1)
  }

  // ----- Gregorian years -----

  lemma NewYearStep(y: int)
    ensures NewYear(y + 1) == NewYear(y) + YearLength(y)
  {
    FloorStep(y, 4);
    FloorStep(y, 100);
    FloorStep(y, 400);
  }

  lemma FloorStep(y: int, k: int)
    requires k > 0
    ensures y / k == (y - 1) / k + if y % k == 0 then 1 else 0
  {
    var q, r := y / k, y % k;
    assert y == k * q + r;
    if r == 0 {
      assert y - 1 == k * (q - 1) + (k - 1);
      DivUnique(y - 1, k, q - 1, k - 1);
    } else {
      DivUnique(y - 1, k, q, r - 1);
    }
  }

  lemma DivUnique(n: int, k: int, q: int, r: int)
    requires k > 0 && 0 <= r < k && n == k * q + r
    ensures n / k == q && n % k == r
  {
    var d := n / k - q;
    assert k * d + n % k == r;
    if d >= 1 {
      MulAtLeast(k, d);
    } else if d <= -1 {
      MulAtLeast(k, -d);
    }
  }

  lemma MulAtLeast(k: int, d: int)
    requires k > 0 && d >= 1
    ensures k * d >= k
  {
    assert k * d == k + k * (d - 1);
  }

  lemma {:induction false} NewYearMonotone(a: int, b: int)
    requires a < b
    ensures NewYear(a) < NewYear(b)
    decreases b - a
  {
    hide NewYear;
    NewYearStep(b - 1);
    if a < b - 1 {
      NewYearMonotone(a, b - 1);
    }
  }

  /** First day and length of the year at a given place in the cycles. */
  lemma CyclePlace(n400: int, n100: int, n4: int, n1: int)
    requires 0 <= n100 <= 3 && 0 <= n4 <= 24 && 0 <= n1 <= 3
    ensures var y := 400 * n400 + 100 * n100 + 4 * n4 + n1 + 1;
            && NewYear(y) == 146097 * n400 + 36524 * n100 + 1461 * n4 + 365 * n1 - 719162
            && (IsLeap(y) <==> n1 == 3 && (n4 != 24 || n100 == 3))
  {
    var z := 400 * n400 + 100 * n100 + 4 * n4 + n1;
    DivUnique(z, 4, 100 * n400 + 25 * n100 + n4, n1);
    DivUnique(z, 100, 4 * n400 + n100, 4 * n4 + n1);
    DivUnique(z, 400, n400, 100 * n100 + 4 * n4 + n1);
    FloorStep(z + 1, 4);
    FloorStep(z + 1, 100);
    FloorStep(z + 1, 400);
  }

  /** The cycle arithmetic finds the year whose days, counted by the leap-year rule, include the day. */
  lemma YearOfBounds(day: int)
    ensures NewYear(YearOf(day)) <= day < NewYear(YearOf(day) + 1)
  {
    hide NewYear, IsLeap;
    var n := day + 719162;
    var n400, r400 := n / 146097, n % 146097;
    var n100 := if r400 / 36524 == 4 then 3 else r400 / 36524;
    var r100 := r400 - 36524 * n100;
    var n4, r4 := r100 / 1461, r100 % 1461;
    var n1 := if r4 / 365 == 4 then 3 else r4 / 365;
    CyclePlace(n400, n100, n4, n1);
    NewYearStep(YearOf(day));
  }

  lemma YearUnique(day: int, y: int)
    requires NewYear(y) <= day < NewYear(y + 1)
    ensures y == YearOf(day)
  {
    hide NewYear, YearOf;
    YearOfBounds(day);
    var z := YearOf(day);
    if y < z {
      if y + 1 < z { NewYearMonotone(y + 1, z); }
    } else if z < y {
      if z + 1 < y { NewYearMonotone(z + 1, y); }
    }
  }

  // ----- Months -----

  lemma MonthStep(month: int)
    ensures 28 <= MonthLength(month) <= 31
  {
    hide NewYear, IsLeap;
    var y, m := month / 12, month % 12;
    if m == 11 {
      DivUnique(month + 1, 12, y + 1, 0);
      NewYearStep(y);
    } else {
      DivUnique(month + 1, 12, y, m + 1);
    }
  }

  lemma {:induction false} MonthMonotone(a: int, b: int)
    requires a < b
    ensures MonthStart(a) < MonthStart(b)
    decreases b - a
  {
    hide MonthStart;
    MonthStep(b - 1);
    if a < b - 1 {
      MonthMonotone(a, b - 1);
    }
  }

  lemma MonthOfBounds(day: int)
    ensures MonthStart(MonthOf(day)) <= day < MonthStart(MonthOf(day) + 1)
    ensures 1 <= DayOfMonth(day) <= MonthLength(MonthOf(day))
  {
    hide NewYear, YearOf, IsLeap;
    YearOfBounds(day);
    var y := YearOf(day);
    NewYearStep(y);
    var m := MonthInYear(day - NewYear(y), IsLeap(y));
    DivUnique(12 * y + m - 1, 12, y, m - 1);
    if m == 12 {
      DivUnique(12 * y + 12, 12, y + 1, 0);
    } else {
      DivUnique(12 * y + m, 12, y, m);
    }
  }

  lemma MonthUnique(day: int, month: int)
    requires MonthStart(month) <= day < MonthStart(month + 1)
    ensures month == MonthOf(day)
  {
    hide MonthStart, MonthOf;
    MonthOfBounds(day);
    var k := MonthOf(day);
    if month < k {
      if month + 1 < k { MonthMonotone(month + 1, k); }
    } else if k < month {
      if k + 1 < month { MonthMonotone(k + 1, month); }
    }
  }

  lemma MonthOrder(a: int, b: int)
    requires a <= b
    ensures MonthOf(a) <= MonthOf(b)
  {
    hide MonthStart, MonthOf;
    MonthOfBounds(a);
    MonthOfBounds(b);
    if MonthOf(b) < MonthOf(a) && MonthOf(b) + 1 < MonthOf(a) {
      MonthMonotone(MonthOf(b) + 1, MonthOf(a));
    }
  }

  /** How many days a month of the Gregorian calendar has. */
  function DaysIn(year: int, month: int): int {
    if month == 2 then if year % 4 == 0 && (year % 100 != 0 || year % 400 == 0) then 29 else 28
    else if month in {4, 6, 9, 11} then 30 else 31
  }

  lemma MonthLengths(month: int)
    ensures MonthLength(month) == DaysIn(month / 12, month % 12 + 1)
  {
    hide NewYear;
    var y, m := month / 12, month % 12;
    if m == 11 {
      DivUnique(month + 1, 12, y + 1, 0);
      NewYearStep(y);
    } else {
      DivUnique(month + 1, 12, y, m + 1);
    }
  }

  /** The date after a date. */
  function NextDate(d: Date): Date {
    if d.day < DaysIn(d.year, d.month) then Date(d.year, d.month, d.day + 1)
    else if d.month < 12 then Date(d.year, d.month + 1, 1)
    else Date(d.year + 1, 1, 1)
  }

  /** Day 0 is 1 January 1970, and every day's date is followed by the next date: so every day has its date. */
  lemma DateSuccessor(day: int)
    ensures day == 0 ==> DateOf(day) == Date(1970, 1, 1)
    ensures DateOf(day + 1) == NextDate(DateOf(day))
  {
    hide MonthStart, MonthOf, MonthLength;
    if day == 0 {
      FirstDate(day);
    }
    MonthOfBounds(day);
    MonthLengths(MonthOf(day));
    MonthAfter(day);
  }

  lemma FirstDate(day: int)
    requires day == 0
    ensures DateOf(day) == Date(1970, 1, 1)
  {
    hide DateOf, MonthStart, NewYear;
    Year1970();
    January1970();
    FirstOfMonth(23640);
  }

  lemma FirstOfMonth(month: int)
    ensures DateOf(MonthStart(month)) == Date(month / 12, month % 12 + 1, 1)
  {
    hide MonthStart, MonthOf;
    MonthStep(month);
    MonthUnique(MonthStart(month), month);
  }

  lemma January1970()
    requires NewYear(1970) == 0
    ensures MonthStart(23640) == 0 && MonthStart(23641) == 31
  {
    hide NewYear;
  }

  lemma MonthAfter(day: int)
    ensures var k := MonthOf(day);
            if DayOfMonth(day) < MonthLength(k) then MonthOf(day + 1) == k && DayOfMonth(day + 1) == DayOfMonth(day) + 1
            else MonthOf(day + 1) == k + 1 && DayOfMonth(day + 1) == 1
    ensures DayOfMonth(day) <= MonthLength(MonthOf(day))
  {
    hide MonthStart, MonthOf;
    MonthOfBounds(day);
    var k := MonthOf(day);
    MonthStep(k + 1);
    if DayOfMonth(day) < MonthLength(k) {
      MonthUnique(day + 1, k);
    } else {
      MonthUnique(day + 1, k + 1);
    }
  }

  /** A printed date determines the day, so comparing printed dates compares days. */
  lemma DateUnique(a: int, b: int)
    requires DateOf(a) == DateOf(b)
    ensures a == b
  {
    hide MonthStart, MonthOf;
    assert MonthOf(a) == 12 * (MonthOf(a) / 12) + MonthOf(a) % 12;
    assert MonthOf(b) == 12 * (MonthOf(b) / 12) + MonthOf(b) % 12;
  }

  /** Adding days moves the day number; adding a month reaches the next month unless it is too short,
      and then runs past its end into the month after, to a day no later than the third. */
  lemma AddDateMeaning(day: int)
    ensures forall n :: AddDate(day, 0, n) == day + n
    ensures var next := AddDate(day, 1, 0);
            if DayOfMonth(day) <= MonthLength(MonthOf(day) + 1)
            then MonthOf(next) == MonthOf(day) + 1 && DayOfMonth(next) == DayOfMonth(day)
            else MonthOf(next) == MonthOf(day) + 2 && 1 <= DayOfMonth(next) <= 3
  {
    hide MonthStart, MonthOf;
    MonthOfBounds(day);
    var k := MonthOf(day);
    var next := AddDate(day, 1, 0);
    MonthStep(k);
    MonthStep(k + 1);
    MonthStep(k + 2);
    if DayOfMonth(day) <= MonthLength(k + 1) {
      MonthUnique(next, k + 1);
    } else {
      MonthUnique(next, k + 2);
    }
  }

  // ----- ISO weeks (section 2.2.10 of ISO 8601:2004) -----

  /** A week's Thursday lies in the ISO year, at the 7-day slot given by the week number. */
  lemma IsoWeekBounds(week: int)
    ensures var iso := IsoWeekAt(week);
            && 1 <= iso.week <= 53
            && NewYear(iso.year) + 7 * (iso.week - 1) <= 7 * week < NewYear(iso.year) + 7 * iso.week
            && 7 * week < NewYear(iso.year + 1)
  {
    hide NewYear, YearOf, IsLeap;
    YearOfBounds(7 * week);
    NewYearStep(YearOf(7 * week));
  }

  /** (ISO year, week) names a week uniquely. */
  lemma IsoWeekUnique(v: int, w: int)
    requires IsoWeekAt(v) == IsoWeekAt(w)
    ensures v == w
  {
    hide NewYear, YearOf, IsoWeekAt;
    IsoWeekBounds(v);
    IsoWeekBounds(w);
  }

  predicate IsoBefore(a: IsoWeek, b: IsoWeek) {
    a.year < b.year || (a.year == b.year && a.week < b.week)
  }

  /** Later weeks have later ISO names. */
  lemma IsoWeekOrder(v: int, w: int)
    requires v < w
    ensures IsoBefore(IsoWeekAt(v), IsoWeekAt(w))
  {
    hide NewYear, YearOf, IsoWeekAt;
    IsoWeekBounds(v);
    IsoWeekBounds(w);
    var a, b := IsoWeekAt(v).year, IsoWeekAt(w).year;
    if b < a && b + 1 < a {
      NewYearMonotone(b + 1, a);
    }
  }

  /** Seven days on is the next week: the next number in the year, or week 1 of the next year
      after week 52 or 53. */
  lemma IsoWeekSuccessor(day: int)
    ensures WeekOf(day + 7) == WeekOf(day) + 1
    ensures var a, b := IsoWeekOf(day), IsoWeekOf(day + 7);
            || b == IsoWeek(a.year, a.week + 1)
            || (b == IsoWeek(a.year + 1, 1) && 52 <= a.week <= 53)
  {
    hide NewYear, YearOf, IsLeap, IsoWeekAt;
    var w := WeekOf(day);
    IsoWeekBounds(w);
    IsoWeekBounds(w + 1);
    IsoWeekOrder(w, w + 1);
    var y := IsoWeekAt(w).year;
    NewYearStep(y);
    NewYearStep(y + 1);
    if IsoWeekAt(w + 1).year > y + 1 {
      if y + 2 < IsoWeekAt(w + 1).year { NewYearMonotone(y + 2, IsoWeekAt(w + 1).year); }
    }
  }

  /** 1 January 1970 is the Thursday of week 1 of 1970; that week began on Monday, three days before, and ends on
      Sunday, three days after. Each week is seven days on from the one before. */
  lemma WeekPhase(day: int)
    ensures IsoWeekOf(0) == IsoWeek(1970, 1)
    ensures WeekOf(-3) == WeekOf(3) == WeekOf(0) && WeekOf(-4) == WeekOf(0) - 1 && WeekOf(4) == WeekOf(0) + 1
    ensures WeekOf(day + 7) == WeekOf(day) + 1 && WeekOf(day) <= WeekOf(day + 1) <= WeekOf(day) + 1
  {
    Year1970();
    hide NewYear, YearOf;
    YearUnique(0, 1970);
  }

  lemma Year1970()
    ensures NewYear(1970) == 0 && NewYear(1971) == 365
  {
  }

  /** The first-Thursday rule in its other form: 4 January is always in week 1 of its own year. */
  lemma FourthOfJanuary(y: int)
    ensures IsoWeekOf(NewYear(y) + 3) == IsoWeek(y, 1)
  {
    var w := WeekOf(NewYear(y) + 3);
    NewYearStep(y);
    YearUnique(7 * w, y);
  }
}
