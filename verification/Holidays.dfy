/** loaf_holidays.py: public holidays as rules, and the days they fall on. */
module Holidays {
  import opened Calendar

  datatype Holiday =
    | NewYear | Mlk | Presidents | GoodFriday | Memorial | Juneteenth | Independence | Labor
    | Columbus | Veterans | Thanksgiving | DayAfterThanksgiving | ChristmasEve | Christmas | NewYearsEve

  datatype Rule = Fixed(month: nat, day: nat) | Nth(month: nat, weekday: DayOfWeek, n: int) | EasterPlus(offset: int)

  /** The table of rules; January is month 1. */
  function RuleOf(h: Holiday): Rule {
    match h
    case NewYear => Fixed(1, 1)
    case Mlk => Nth(1, 0, 3)
    case Presidents => Nth(2, 0, 3)
    case GoodFriday => EasterPlus(-2)
    case Memorial => Nth(5, 0, -1)
    case Juneteenth => Fixed(6, 19)
    case Independence => Fixed(7, 4)
    case Labor => Nth(9, 0, 1)
    case Columbus => Nth(10, 0, 2)
    case Veterans => Fixed(11, 11)
    case Thanksgiving => Nth(11, 3, 4)
    case DayAfterThanksgiving => Nth(11, 4, 4)
    case ChristmasEve => Fixed(12, 24)
    case Christmas => Fixed(12, 25)
    case NewYearsEve => Fixed(12, 31)
  }

  // ---------------------------------------------------------------- Easter

  /** Days after 22 March, by the anonymous Gregorian algorithm. */
  function EasterOffset(year: int): int {
    var a := year % 19;
    var b, c := year / 100, year % 100;
    var d, e := b / 4, b % 4;
    var f := (b + 8) / 25;
    var g := (b - f + 1) / 3;
    var h := (19 * a + b - d - g + 15) % 30;
    var i, k := c / 4, c % 4;
    var l := (32 + 2 * e + 2 * i - h - k) % 7;
    var m := (a + 11 * h + 22 * l) / 451;
    h + l - 7 * m
  }

  lemma EasterOffsetRange(year: int)
    ensures 0 <= EasterOffset(year) <= 34
  {
    var a := year % 19;
    var b, c := year / 100, year % 100;
    var g := (b - (b + 8) / 25 + 1) / 3;
    var h := (19 * a + b - b / 4 - g + 15) % 30;
    var l := (32 + 2 * (b % 4) + 2 * (c / 4) - h - c % 4) % 7;
    OffsetInRange(a, h, l);
  }

  lemma OffsetInRange(a: int, h: int, l: int)
    requires 0 <= a < 19 && 0 <= h < 30 && 0 <= l < 7
    ensures 0 <= h + l - 7 * ((a + 11 * h + 22 * l) / 451) <= 34
  {
    assert a + 11 * h + 22 * l < 902;
  }

  /** _easter: month and day as it divides them out. */
  function EasterSunday(year: int): int {
    EasterOffsetRange(year);
    EasterUnpacks(EasterOffset(year));
    var packed := EasterOffset(year) + 114;
    var month, day := packed / 31, packed % 31;
    MarchAndApril(year);
    DateOf(12 * (year - 1) + month - 1, day + 1)
  }

  lemma EasterUnpacks(offset: int)
    requires 0 <= offset <= 34
    ensures
      var month, day := (offset + 114) / 31, (offset + 114) % 31;
      if offset <= 9 then month == 3 && day == offset + 21 else month == 4 && day == offset - 10
  {
  }

  lemma MarchAndApril(year: int)
    ensures MonthLength(12 * (year - 1) + 2) == 31 && MonthLength(12 * (year - 1) + 3) == 30
    ensures MonthStart(12 * (year - 1) + 3) == MonthStart(12 * (year - 1) + 2) + 31
  {
    MonthStep(year, 2);
    NextMonthStart(12 * (year - 1) + 2);
    assert (12 * (year - 1) + 3) % 12 == 3;
  }

  lemma EasterIsOffset(year: int)
    ensures EasterSunday(year) == MonthStart(12 * (year - 1) + 2) + 21 + EasterOffset(year)
    ensures MonthOf(EasterSunday(year)) == 12 * (year - 1) + 2 || MonthOf(EasterSunday(year)) == 12 * (year - 1) + 3
  {
    EasterOffsetRange(year);
    MarchAndApril(year);
  }

  /** The first of March, in the terms of the algorithm. */
  lemma MarchFirst(year: int)
    ensures
      var b, c := year / 100, year % 100;
      MonthStart(12 * (year - 1) + 2) == 36524 * b + 365 * c + c / 4 + b / 4 - 305
  {
    YearStartClosed(year);
    FirstHalf(year);
    MultiplesPassed(year);
    CenturiesAndYears(year);
  }

  lemma CenturiesAndYears(year: int)
    ensures
      var b, c := year / 100, year % 100;
      year == 100 * b + c && year / 4 == 25 * b + c / 4 && year / 400 == b / 4
  {
  }

  /** For every Gregorian year Easter falls on a Sunday between 22 March and 25 April. */
  lemma EasterIsASpringSunday(year: int)
    ensures Weekday(EasterSunday(year)) == 6
    ensures
      var march22 := MonthStart(12 * (year - 1) + 2) + 21;
      MonthOf(march22) == 12 * (year - 1) + 2 && march22 <= EasterSunday(year) <= march22 + 34
  {
    var start := MonthStart(12 * (year - 1) + 2);
    EasterIsOffset(year);
    EasterOffsetRange(year);
    MarchTwentySecond(year);
    EasterWeekday(year, start);
    SundayLies(EasterSunday(year), start + 21, EasterOffset(year));
  }

  lemma MarchTwentySecond(year: int)
    ensures MonthOf(MonthStart(12 * (year - 1) + 2) + 21) == 12 * (year - 1) + 2
  {
    MarchAndApril(year);
    MonthOfUnique(MonthStart(12 * (year - 1) + 2) + 21, 12 * (year - 1) + 2);
  }

  lemma SundayLies(easter: int, march22: int, offset: int)
    requires easter == march22 + offset && 0 <= offset <= 34 && Weekday(march22 + offset) == 6
    ensures Weekday(easter) == 6 && march22 <= easter <= march22 + 34
  {
  }

  lemma EasterWeekday(year: int, start: int)
    requires start == MonthStart(12 * (year - 1) + 2)
    ensures Weekday(start + 21 + EasterOffset(year)) == 6
  {
    MarchFirst(year);
    SundayAtLast(year);
  }

  lemma SundayAtLast(year: int)
    ensures
      var b, c := year / 100, year % 100;
      (36524 * b + 365 * c + c / 4 + b / 4 - 305 + 21 + EasterOffset(year) + 6) % 7 == 6
  {
    var a := year % 19;
    var b, c := year / 100, year % 100;
    var d, e, i, k := b / 4, b % 4, c / 4, c % 4;
    var g := (b - (b + 8) / 25 + 1) / 3;
    var h := (19 * a + b - d - g + 15) % 30;
    var l := (32 + 2 * e + 2 * i - h - k) % 7;
    WeekOut(d, e, i, k, h, l, (a + 11 * h + 22 * l) / 451);
  }

  lemma WeekOut(d: int, e: int, i: int, k: int, h: int, l: int, m: int)
    requires l == (32 + 2 * e + 2 * i - h - k) % 7
    ensures (36524 * (4 * d + e) + 365 * (4 * i + k) + i + d - 305 + 21 + (h + l - 7 * m) + 6) % 7 == 6
  {
    var q := (32 + 2 * e + 2 * i - h - k) / 7;
    assert l == 32 + 2 * e + 2 * i - h - k - 7 * q;
    SixOver(20871 * d + 5218 * e + 209 * i + 52 * k - 36 - q - m);
    assert 36524 * (4 * d + e) + 365 * (4 * i + k) + i + d - 305 + 21 + (h + l - 7 * m) + 6
        == 7 * (20871 * d + 5218 * e + 209 * i + 52 * k - 36 - q - m) + 6;
  }

  lemma SixOver(weeks: int)
    ensures (7 * weeks + 6) % 7 == 6
  {
  }

  // --------------------------------------------------- the other rules

  /** A fixed holiday on a weekend is taken next to it. */
  function Observed(day: int): (r: int)
    ensures Weekday(r) < 5 && day - 1 <= r <= day + 1
    ensures Weekday(day) < 5 ==> r == day
  {
    if Weekday(day) == 5 then day - 1 else if Weekday(day) == 6 then day + 1 else day
  }

  /** The last such weekday on or before a day. */
  function LastOn(day: int, weekday: DayOfWeek): (r: int)
    ensures day - 7 < r <= day && Weekday(r) == weekday
  {
    day - (Weekday(day) - weekday) % 7
  }

  /** The first such weekday on or after a day. */
  function FirstOn(day: int, weekday: DayOfWeek): (r: int)
    ensures day <= r < day + 7 && Weekday(r) == weekday
  {
    day + DaysUntil(day, weekday)
  }

  lemma WithinAWeek(d: int, e: int)
    requires Weekday(d) == Weekday(e) && d - 7 < e < d + 7
    ensures d == e
  {
  }

  lemma SameLastOn(day: int, weekday: DayOfWeek)
    requires Weekday(day) != weekday
    ensures LastOn(day - 1, weekday) == LastOn(day, weekday)
  {
    WithinAWeek(LastOn(day - 1, weekday), LastOn(day, weekday));
  }

  method StepBackTo(day: int, weekday: DayOfWeek) returns (when: int)
    ensures when == LastOn(day, weekday)
  {
    when := day;
    while Weekday(when) != weekday
      invariant LastOn(when, weekday) == LastOn(day, weekday)
      decreases when - LastOn(day, weekday)
    {
      SameLastOn(when, weekday);
      when := when - 1;
    }
  }

  lemma SameFirstOn(day: int, weekday: DayOfWeek)
    requires Weekday(day) != weekday
    ensures FirstOn(day + 1, weekday) == FirstOn(day, weekday)
  {
    WithinAWeek(FirstOn(day + 1, weekday), FirstOn(day, weekday));
  }

  method StepForwardTo(day: int, weekday: DayOfWeek) returns (when: int)
    ensures when == FirstOn(day, weekday)
  {
    when := day;
    while Weekday(when) != weekday
      invariant FirstOn(when, weekday) == FirstOn(day, weekday)
      decreases FirstOn(day, weekday) - when
    {
      SameFirstOn(when, weekday);
      when := when + 1;
    }
  }

  /** The nth such weekday of a month, or the nth from its end when n is negative. */
  function NthDate(month: int, weekday: DayOfWeek, n: int): int {
    if n < 0 then LastOn(MonthStart(month + 1) - 1, weekday) - 7 * (-n - 1)
    else FirstOn(MonthStart(month), weekday) + 7 * (n - 1)
  }

  /** _nth_weekday, as it runs: step to the weekday, then by whole weeks. */
  method NthWeekday(month: int, weekday: DayOfWeek, n: int) returns (when: int)
    ensures when == NthDate(month, weekday, n)
  {
    if n < 0 {
      when := StepBackTo(MonthStart(month + 1) - 1, weekday);
      return when - 7 * (-n - 1);
    }
    when := StepForwardTo(MonthStart(month), weekday);
    return when + 7 * (n - 1);
  }

  /** It is that weekday, in that month, and the nth of them from its start or its end. */
  lemma NthIsTheNth(month: int, weekday: DayOfWeek, n: int)
    requires 1 <= n <= 4 || -4 <= n <= -1
    ensures
      var d := NthDate(month, weekday, n);
      && Weekday(d) == weekday && MonthOf(d) == month
      && (n > 0 ==> 7 * (n - 1) < DayOf(d) <= 7 * n)
      && (n < 0 ==> 7 * (-n - 1) <= MonthLength(month) - DayOf(d) < 7 * -n)
  {
    NextMonthStart(month);
    InThatMonth(NthDate(month, weekday, n), month);
    WholeWeeks(if n < 0 then LastOn(MonthStart(month + 1) - 1, weekday) else FirstOn(MonthStart(month), weekday),
               if n < 0 then n + 1 else n - 1);
  }

  lemma InThatMonth(d: int, month: int)
    ensures InMonth(d, month) ==> MonthOf(d) == month && DayOf(d) == d - MonthStart(month) + 1
  {
    if InMonth(d, month) {
      MonthOfUnique(d, month);
    }
  }

  lemma WholeWeeks(d: int, weeks: int)
    ensures Weekday(d + 7 * weeks) == Weekday(d)
  {
  }

  function HolidayDate(h: Holiday, year: int): int {
    RuleDate(RuleOf(h), year)
  }

  function RuleDate(rule: Rule, year: int): int {
    match rule
    case Fixed(month, day) =>
      if 1 <= month <= 12 && 1 <= day <= MonthLength(12 * (year - 1) + month - 1)
      then Observed(DateOf(12 * (year - 1) + month - 1, day)) else 0
    case Nth(month, weekday, n) => NthDate(12 * (year - 1) + month - 1, weekday, n)
    case EasterPlus(offset) => EasterSunday(year) + offset
  }

  // ------------------------------------------------- each of them, by name

  /** A date of the year, or the day it is taken on: the Friday before a Saturday, the Monday
      after a Sunday. */
  ghost predicate KeptFor(d: int, year: int, month: nat, day: nat) {
    exists on :: MonthOf(on) == 12 * (year - 1) + month - 1 && DayOf(on) == day
                 && d == if Weekday(on) == 5 then on - 1 else if Weekday(on) == 6 then on + 1 else on
  }

  /** The weekday of a month that falls in one week of it. */
  ghost predicate FallsIn(d: int, year: int, month: nat, weekday: DayOfWeek, first: nat) {
    MonthOf(d) == 12 * (year - 1) + month - 1 && Weekday(d) == weekday && first <= DayOf(d) <= first + 6
  }

  ghost predicate IsTheHoliday(h: Holiday, year: int, d: int) {
    match h
    case NewYear => KeptFor(d, year, 1, 1)
    case Mlk => FallsIn(d, year, 1, 0, 15)
    case Presidents => FallsIn(d, year, 2, 0, 15)
    case GoodFriday => d + 2 == EasterSunday(year)
    case Memorial => FallsIn(d, year, 5, 0, 25)
    case Juneteenth => KeptFor(d, year, 6, 19)
    case Independence => KeptFor(d, year, 7, 4)
    case Labor => FallsIn(d, year, 9, 0, 1)
    case Columbus => FallsIn(d, year, 10, 0, 8)
    case Veterans => KeptFor(d, year, 11, 11)
    case Thanksgiving => FallsIn(d, year, 11, 3, 22)
    case DayAfterThanksgiving => FallsIn(d, year, 11, 4, 22)
    case ChristmasEve => KeptFor(d, year, 12, 24)
    case Christmas => KeptFor(d, year, 12, 25)
    case NewYearsEve => KeptFor(d, year, 12, 31)
  }

  lemma FixedIs(year: int, month: nat, day: nat)
    requires 1 <= month <= 12 && 1 <= day <= MonthLength(12 * (year - 1) + month - 1)
    ensures KeptFor(RuleDate(Fixed(month, day), year), year, month, day)
  {
    var on := DateOf(12 * (year - 1) + month - 1, day);
    assert MonthOf(on) == 12 * (year - 1) + month - 1;
  }

  lemma NthIs(year: int, month: nat, weekday: DayOfWeek, n: int, first: nat)
    requires 1 <= month <= 12
    requires (1 <= n <= 4 && first == 7 * n - 6)
             || (n == -1 && first == MonthLength(12 * (year - 1) + month - 1) - 6)
    ensures FallsIn(RuleDate(Nth(month, weekday, n), year), year, month, weekday, first)
  {
    NthIsTheNth(12 * (year - 1) + month - 1, weekday, n);
  }

  lemma LengthOf(year: int, month: nat)
    requires 1 <= month <= 12
    ensures month != 2 && month != 4 && month != 6 && month != 9 && month != 11 ==>
      MonthLength(12 * (year - 1) + month - 1) == 31
    ensures month != 2 ==> MonthLength(12 * (year - 1) + month - 1) >= 30
  {
    assert (12 * (year - 1) + month - 1) % 12 == month - 1;
  }

  /** Every holiday, in every year, is the day its name says. */
  lemma HolidayFalls(h: Holiday, year: int)
    ensures IsTheHoliday(h, year, HolidayDate(h, year))
  {
    match h {
      case NewYear => LengthOf(year, 1); FixedIs(year, 1, 1);
      case Mlk => NthIs(year, 1, 0, 3, 15);
      case Presidents => NthIs(year, 2, 0, 3, 15);
      case GoodFriday =>
      case Memorial => LengthOf(year, 5); NthIs(year, 5, 0, -1, 25);
      case Juneteenth => LengthOf(year, 6); FixedIs(year, 6, 19);
      case Independence => LengthOf(year, 7); FixedIs(year, 7, 4);
      case Labor => NthIs(year, 9, 0, 1, 1);
      case Columbus => NthIs(year, 10, 0, 2, 8);
      case Veterans => LengthOf(year, 11); FixedIs(year, 11, 11);
      case Thanksgiving => NthIs(year, 11, 3, 4, 22);
      case DayAfterThanksgiving => NthIs(year, 11, 4, 4, 22);
      case ChristmasEve => LengthOf(year, 12); FixedIs(year, 12, 24);
      case Christmas => LengthOf(year, 12); FixedIs(year, 12, 25);
      case NewYearsEve => LengthOf(year, 12); FixedIs(year, 12, 31);
    }
  }

  /** Days after 22 March from what the algorithm's three remainders come to. */
  lemma EasterByHand(year: int, a: int, h: int, l: int, m: int)
    requires a == year % 19 && m == (a + 11 * h + 22 * l) / 451
    requires h == (19 * a + year / 100 - year / 100 / 4 - (year / 100 - (year / 100 + 8) / 25 + 1) / 3 + 15) % 30
    requires l == (32 + 2 * (year / 100 % 4) + 2 * (year % 100 / 4) - h - year % 100 % 4) % 7
    ensures EasterOffset(year) == h + l - 7 * m
  {
  }

  /** Where it is known: the earliest there is, the latest, and two years between. */
  lemma EarliestEaster()
    ensures EasterOffset(1818) == 0
  {
    EasterByHand(1818, 13, 0, 0, 0);
  }

  lemma LatestEaster()
    ensures EasterOffset(2038) == 34
  {
    EasterByHand(2038, 5, 29, 5, 0);
  }

  lemma EasterOf2024()
    ensures EasterOffset(2024) == 9
  {
    EasterByHand(2024, 10, 4, 5, 0);
  }

  lemma EasterOf2025()
    ensures EasterOffset(2025) == 29
  {
    EasterByHand(2025, 11, 23, 6, 0);
  }

  lemma EasterFalls(year: int, offset: int)
    requires offset == EasterOffset(year)
    ensures
      var d, march := EasterSunday(year), 12 * (year - 1) + 2;
      && (offset <= 9 ==> MonthOf(d) == march && DayOf(d) == 22 + offset)
      && (offset > 9 ==> MonthOf(d) == march + 1 && DayOf(d) == offset - 9)
  {
    EasterIsOffset(year);
    EasterOffsetRange(year);
    MarchAndApril(year);
    InThatMonth(EasterSunday(year), 12 * (year - 1) + 2);
    InThatMonth(EasterSunday(year), 12 * (year - 1) + 3);
  }

  // --------------------------------------------- the days of a span of time

  /** A holiday of one's own, not moved off a weekend. */
  datatype OwnHoliday = OwnHoliday(month: nat, day: nat)

  /** A year without that day, 29 February, has none. */
  function OwnDate(c: OwnHoliday, year: int): set<int> {
    var month := 12 * (year - 1) + c.month - 1;
    if 1 <= c.month <= 12 && 1 <= c.day <= MonthLength(month) then {DateOf(month, c.day)} else {}
  }

  /** One of one's own is that day of that month, in a year that has it. */
  lemma OwnFalls(c: OwnHoliday, year: int, d: int)
    ensures d in OwnDate(c, year)
       <==> 1 <= c.month <= 12 && MonthOf(d) == 12 * (year - 1) + c.month - 1 && DayOf(d) == c.day
  {
  }

  function Collect<T>(items: seq<T>, days: T -> set<int>): set<int> {
    if items == [] then {}
    else Collect(items[..|items| - 1], days) + days(items[|items| - 1])
  }

  function NamedOn(year: int): Holiday -> set<int> {
    h => {HolidayDate(h, year)}
  }

  function OwnOn(year: int): OwnHoliday -> set<int> {
    c => OwnDate(c, year)
  }

  /** Every observed day that one year's holidays give. */
  function YearDays(named: seq<Holiday>, own: seq<OwnHoliday>): int -> set<int> {
    year => Collect(named, NamedOn(year)) + Collect(own, OwnOn(year))
  }

  function Clip(days: set<int>, first: int, last: int): set<int> {
    set d | d in days && first <= d <= last
  }

  /** The days of several years that lie within a span. */
  function SpanDays(yearDays: int -> set<int>, firstYear: int, years: nat, first: int, last: int): set<int> {
    if years == 0 then {}
    else
      SpanDays(yearDays, firstYear, years - 1, first, last)
      + Clip(yearDays(firstYear + years - 1), first, last)
  }

  function YearsSpanned(first: int, last: int): nat {
    if YearOfDay(first) <= YearOfDay(last) then YearOfDay(last) - YearOfDay(first) + 1 else 0
  }

  /** dates_between: every observed holiday in [first, last]. */
  function DatesBetween(named: seq<Holiday>, own: seq<OwnHoliday>, first: int, last: int): set<int> {
    SpanDays(YearDays(named, own), YearOfDay(first), YearsSpanned(first, last), first, last)
  }

  /** dates_between, as it runs: year by year across the span. */
  method ListDatesBetween(yearDays: int -> set<int>, first: int, last: int) returns (out: set<int>)
    ensures out == SpanDays(yearDays, YearOfDay(first), YearsSpanned(first, last), first, last)
  {
    out := {};
    var years, firstYear := YearsSpanned(first, last), YearOfDay(first);
    for k := 0 to years
      invariant out == SpanDays(yearDays, firstYear, k, first, last)
    {
      out := out + Clip(yearDays(firstYear + k), first, last);
    }
  }

  lemma {:induction false} CollectHas<T>(items: seq<T>, days: T -> set<int>, d: int)
    ensures d in Collect(items, days) <==> exists x :: x in items && d in days(x)
  {
    if items != [] {
      var n := |items| - 1;
      assert items == items[..n] + [items[n]];
      CollectHas(items[..n], days, d);
    }
  }

  lemma {:induction false} SpanHas(yearDays: int -> set<int>, firstYear: int, years: nat, first: int, last: int, d: int)
    ensures d in SpanDays(yearDays, firstYear, years, first, last)
       <==> first <= d <= last && exists y :: firstYear <= y < firstYear + years && d in yearDays(y)
  {
    if years > 0 {
      SpanHas(yearDays, firstYear, years - 1, first, last, d);
    }
  }

  // ------------------------------------------------- the edge of the year

  /** Away from the ends of the year, except for the two at its ends. */
  lemma FixedRules(h: Holiday)
    requires RuleOf(h).Fixed?
    ensures
      var rule := RuleOf(h);
      && 1 <= rule.month <= 12
      && (2 <= rule.day <= 27 || (rule.day == 1 && rule.month == 1) || (rule.day == 31 && rule.month == 12))
      && (rule.day == 1 <==> h == NewYear) && (rule.day == 31 <==> h == NewYearsEve)
  {
  }

  /** Only two holidays can be observed in a year not their own. */
  lemma StaysInItsYear(h: Holiday, year: int)
    ensures h != NewYear && h != NewYearsEve ==> YearOfDay(HolidayDate(h, year)) == year
    ensures h == NewYear ==> year - 1 <= YearOfDay(HolidayDate(h, year)) <= year
    ensures h == NewYearsEve ==> year <= YearOfDay(HolidayDate(h, year)) <= year + 1
  {
    match RuleOf(h) {
      case Fixed(month, day) => FixedHolidayStays(h, year);
      case Nth(month, weekday, n) => NthHolidayStays(h, year);
      case EasterPlus(offset) => EasterStays(offset, year);
    }
  }

  lemma FixedHolidayStays(h: Holiday, year: int)
    requires RuleOf(h).Fixed?
    ensures
      var kept := YearOfDay(HolidayDate(h, year));
      && (h != NewYear && h != NewYearsEve ==> kept == year)
      && (h == NewYear ==> year - 1 <= kept <= year)
      && (h == NewYearsEve ==> year <= kept <= year + 1)
  {
    FixedRules(h);
    FixedRuleStays(RuleOf(h), year);
  }

  lemma FixedRuleStays(rule: Rule, year: int)
    requires rule.Fixed? && 1 <= rule.month <= 12
    requires 2 <= rule.day <= 27 || (rule.day == 1 && rule.month == 1) || (rule.day == 31 && rule.month == 12)
    ensures
      var kept := YearOfDay(RuleDate(rule, year));
      && (2 <= rule.day <= 27 ==> kept == year)
      && (rule.day == 1 ==> year - 1 <= kept <= year)
      && (rule.day == 31 ==> year <= kept <= year + 1)
  {
    FixedStays(rule.month, rule.day, year);
  }

  lemma NthHolidayStays(h: Holiday, year: int)
    requires RuleOf(h).Nth?
    ensures YearOfDay(HolidayDate(h, year)) == year
  {
    var rule := RuleOf(h);
    NthStays(rule.month, rule.weekday, rule.n, year);
  }

  lemma NthStays(month: nat, weekday: DayOfWeek, n: int, year: int)
    requires 1 <= month <= 12 && (1 <= n <= 4 || -4 <= n <= -1)
    ensures YearOfDay(NthDate(12 * (year - 1) + month - 1, weekday, n)) == year
  {
    NthIsTheNth(12 * (year - 1) + month - 1, weekday, n);
  }

  lemma FixedStays(month: nat, day: nat, year: int)
    requires 1 <= month <= 12 && 1 <= day
    requires 2 <= day <= 27 || (day == 1 && month == 1) || (day == 31 && month == 12)
    ensures
      var m := 12 * (year - 1) + month - 1;
      && day <= MonthLength(m)
      && (2 <= day <= 27 ==> YearOfDay(Observed(DateOf(m, day))) == year)
      && (day == 1 ==> year - 1 <= YearOfDay(Observed(DateOf(m, day))) <= year)
      && (day == 31 ==> year <= YearOfDay(Observed(DateOf(m, day))) <= year + 1)
  {
    var m := 12 * (year - 1) + month - 1;
    assert m % 12 == month - 1;
    var d := MonthStart(m) + day - 1;
    NextMonthStart(m);
    NextMonthStart(m - 1);
    InThatMonth(d - 1, if day == 1 then m - 1 else m);
    InThatMonth(d, m);
    InThatMonth(d + 1, if day == 31 then m + 1 else m);
    assert d - 1 <= Observed(d) <= d + 1;
  }

  lemma EasterStays(offset: int, year: int)
    requires -2 <= offset <= 0
    ensures YearOfDay(EasterSunday(year) + offset) == year
  {
    var march := 12 * (year - 1) + 2;
    EasterIsOffset(year);
    EasterOffsetRange(year);
    MarchAndApril(year);
    NextMonthStart(march + 1);
    var d := EasterSunday(year) + offset;
    InThatMonth(d, march);
    InThatMonth(d, march + 1);
  }

  lemma OwnStays(c: OwnHoliday, year: int, day: int)
    requires day in OwnDate(c, year)
    ensures YearOfDay(day) == year
  {
    var month := 12 * (year - 1) + c.month - 1;
    assert month / 12 == year - 1;
  }

  lemma {:induction false} YearDaysHas(named: seq<Holiday>, own: seq<OwnHoliday>, year: int, day: int)
    ensures day in YearDays(named, own)(year)
       <==> || (exists h :: h in named && day in NamedOn(year)(h))
            || (exists c :: c in own && day in OwnOn(year)(c))
  {
    CollectHas(named, NamedOn(year), day);
    CollectHas(own, OwnOn(year), day);
  }

  /** A Saturday New Year's Day, kept on the Friday before. */
  ghost predicate ReachesDown(named: seq<Holiday>, year: int, day: int) {
    NewYear in named && day in NamedOn(year)(NewYear)
  }

  /** A Sunday New Year's Eve, kept on the Monday after. */
  ghost predicate ReachesUp(named: seq<Holiday>, year: int, day: int) {
    NewYearsEve in named && day in NamedOn(year)(NewYearsEve)
  }

  /** A neighbouring year can only reach a day through the one holiday at that edge. */
  lemma NeighbourReaches(named: seq<Holiday>, own: seq<OwnHoliday>, year: int, day: int)
    requires year != YearOfDay(day)
    ensures day in YearDays(named, own)(year)
       <==> || (year == YearOfDay(day) + 1 && ReachesDown(named, year, day))
            || (year == YearOfDay(day) - 1 && ReachesUp(named, year, day))
  {
    YearDaysHas(named, own, year, day);
    forall h | h in named && day in NamedOn(year)(h)
      ensures h == NewYear ==> year == YearOfDay(day) + 1
      ensures h == NewYearsEve ==> year == YearOfDay(day) - 1
      ensures h == NewYear || h == NewYearsEve
    {
      StaysInItsYear(h, year);
    }
    forall c | c in own ensures day !in OwnOn(year)(c) {
      if day in OwnDate(c, year) {
        OwnStays(c, year, day);
      }
    }
  }

  /** A holiday reaching a day from the year before or after it, within the years of a span. */
  ghost predicate SpillsOnto(named: seq<Holiday>, first: int, last: int, day: int) {
    || (YearOfDay(day) < YearOfDay(last) && ReachesDown(named, YearOfDay(day) + 1, day))
    || (YearOfDay(first) < YearOfDay(day) && ReachesUp(named, YearOfDay(day) - 1, day))
  }

  lemma {:induction false} SpanIsNear(yearDays: int -> set<int>, firstYear: int, years: nat, first: int, last: int,
                                      day: int, home: int)
    requires first <= day <= last && firstYear <= home < firstYear + years
    requires forall y :: y < home - 1 || y > home + 1 ==> day !in yearDays(y)
    ensures day in SpanDays(yearDays, firstYear, years, first, last)
       <==> || day in yearDays(home)
            || (home + 1 < firstYear + years && day in yearDays(home + 1))
            || (firstYear <= home - 1 && day in yearDays(home - 1))
  {
    SpanHas(yearDays, firstYear, years, first, last, day);
  }

  lemma {:induction false} FarYearsDoNot(named: seq<Holiday>, own: seq<OwnHoliday>, day: int)
    ensures forall y :: y < YearOfDay(day) - 1 || y > YearOfDay(day) + 1 ==> day !in YearDays(named, own)(y)
  {
    forall y | y < YearOfDay(day) - 1 || y > YearOfDay(day) + 1 ensures day !in YearDays(named, own)(y) {
      NeighbourReaches(named, own, y, day);
    }
  }

  lemma SpanYears(first: int, last: int, day: int)
    requires first <= day <= last
    ensures YearOfDay(first) <= YearOfDay(day) <= YearOfDay(last)
    ensures YearOfDay(first) + YearsSpanned(first, last) == YearOfDay(last) + 1
  {
    MonthOfMonotone(first, day);
    MonthOfMonotone(day, last);
  }

  lemma {:induction false} SpanByReach(yearDays: int -> set<int>, first: int, last: int, day: int, above: bool,
                                       below: bool)
    requires first <= day <= last
    requires day in yearDays(YearOfDay(day) + 1) <==> above
    requires day in yearDays(YearOfDay(day) - 1) <==> below
    requires forall y :: y < YearOfDay(day) - 1 || y > YearOfDay(day) + 1 ==> day !in yearDays(y)
    ensures day in SpanDays(yearDays, YearOfDay(first), YearsSpanned(first, last), first, last)
       <==> || day in yearDays(YearOfDay(day))
            || (above && YearOfDay(day) < YearOfDay(last))
            || (below && YearOfDay(first) < YearOfDay(day))
  {
    SpanYears(first, last, day);
    SpanIsNear(yearDays, YearOfDay(first), YearsSpanned(first, last), first, last, day, YearOfDay(day));
  }

  lemma SpanIsYearAndSpill(named: seq<Holiday>, own: seq<OwnHoliday>, first: int, last: int, day: int)
    requires first <= day <= last
    ensures day in DatesBetween(named, own, first, last)
       <==> day in YearDays(named, own)(YearOfDay(day)) || SpillsOnto(named, first, last, day)
  {
    NeighbourReaches(named, own, YearOfDay(day) + 1, day);
    NeighbourReaches(named, own, YearOfDay(day) - 1, day);
    FarYearsDoNot(named, own, day);
    SpanByReach(YearDays(named, own), first, last, day,
                ReachesDown(named, YearOfDay(day) + 1, day), ReachesUp(named, YearOfDay(day) - 1, day));
  }

  /** A day asked about on its own and the same day within a longer span get
      different answers exactly when only a neighbouring year's holiday, observed
      across the turn of the year, shuts it and the span reaches that year. */
  lemma AloneOrInASpan(named: seq<Holiday>, own: seq<OwnHoliday>, first: int, last: int, day: int)
    requires first <= day <= last
    ensures day in DatesBetween(named, own, day, day) ==> day in DatesBetween(named, own, first, last)
    ensures day in DatesBetween(named, own, first, last) && day !in DatesBetween(named, own, day, day)
       <==> SpillsOnto(named, first, last, day) && day !in YearDays(named, own)(YearOfDay(day))
  {
    SpanIsYearAndSpill(named, own, first, last, day);
    SpanIsYearAndSpill(named, own, day, day, day);
  }

  lemma NewYearsDay(year: int)
    ensures HolidayDate(NewYear, year) == Observed(YearStart(year))
    ensures YearOfDay(YearStart(year) - 1) == year - 1
    ensures YearOfDay(YearStart(year) + 2) == year
  {
    var month := 12 * (year - 1);
    assert month % 12 == 0;
    NextMonthStart(month - 1);
    NextMonthStart(month);
    InThatMonth(YearStart(year) - 1, month - 1);
    InThatMonth(YearStart(year) + 2, month);
  }

  /** When New Year's Day is a Saturday, the Friday before it is shut within a
      span reaching into January and open when asked about alone. */
  lemma SaturdayNewYear(year: int)
    requires Weekday(YearStart(year)) == 5
    ensures
      var friday := YearStart(year) - 1;
      && friday in DatesBetween([NewYear], [], friday, friday + 3)
      && friday !in DatesBetween([NewYear], [], friday, friday)
  {
    var friday := YearStart(year) - 1;
    FridayIsReached(year);
    FridayIsNotItsOwn(year);
    AloneOrInASpan([NewYear], [], friday, friday + 3, friday);
  }

  lemma FridayIsReached(year: int)
    requires Weekday(YearStart(year)) == 5
    ensures
      var friday := YearStart(year) - 1;
      YearOfDay(friday) == year - 1 && SpillsOnto([NewYear], friday, friday + 3, friday)
  {
    NewYearsDay(year);
    assert HolidayDate(NewYear, year) == YearStart(year) - 1;
  }

  lemma FridayIsNotItsOwn(year: int)
    ensures YearStart(year) - 1 !in YearDays([NewYear], [])(year - 1)
  {
    NewYearIsKeptBy(year - 1);
    YearDaysHas([NewYear], [], year - 1, YearStart(year) - 1);
  }

  lemma NewYearIsKeptBy(year: int)
    ensures HolidayDate(NewYear, year) < YearStart(year + 1) - 1
  {
    NewYearsDay(year);
    YearLength(year);
  }

  /** Which weekday a year begins on; 2028 comes to 5, a Saturday. */
  lemma WeekdayOfNewYear(year: int)
    ensures Weekday(YearStart(year))
         == ((year - 1) + (year - 1) / 4 - (year - 1) / 100 + (year - 1) / 400) % 7
  {
    YearStartClosed(year);
    DropWeeks(52 * (year - 1) + 1, (year - 1) + (year - 1) / 4 - (year - 1) / 100 + (year - 1) / 400);
  }

  lemma DropWeeks(weeks: int, days: int)
    ensures (7 * weeks + days) % 7 == days % 7
  {
  }
}
