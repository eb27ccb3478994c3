/** Printing a timestamp as a date: the calendar by definition, and the arithmetic that stands for it. */
module CivilDate {
  import opened Wrappers
  import opened Arithmetic
  import opened Joining
  import opened Words

  // ---- The calendar ----

  datatype Date = Date(year: int, month: int, day: int)

  predicate IsLeap(year: int) {
    year % 4 == 0 && (year % 100 != 0 || year % 400 == 0)
  }

  function DaysInMonth(year: int, month: int): int {
    if month == 2 then if IsLeap(year) then 29 else 28
    else if month in {4, 6, 9, 11} then 30
    else 31
  }

  /** A date of the proleptic Gregorian calendar. */
  predicate Valid(date: Date) {
    1 <= date.month <= 12 && 1 <= date.day <= DaysInMonth(date.year, date.month)
  }

  function NextDay(date: Date): Date {
    if date.day < DaysInMonth(date.year, date.month) then date.(day := date.day + 1)
    else if date.month < 12 then Date(date.year, date.month + 1, 1)
    else Date(date.year + 1, 1, 1)
  }

  const EPOCH: Date := Date(1970, 1, 1)

  /** The date `days` days after the epoch, counted one day at a time. */
  function DateAfter(days: nat): Date {
    if days == 0 then EPOCH else NextDay(DateAfter(days - 1))
  }

  predicate Before(a: Date, b: Date) {
    || a.year < b.year
    || (a.year == b.year && a.month < b.month)
    || (a.year == b.year && a.month == b.month && a.day < b.day)
  }

  // ---- Counting days ----

  function YearLength(year: int): int {
    if IsLeap(year) then 366 else 365
  }

  function DaysBeforeYear(year: int): int
    decreases year
  {
    if year <= 1970 then 0 else DaysBeforeYear(year - 1) + YearLength(year - 1)
  }

  function DaysBeforeMonth(year: int, month: int): int
    decreases month
  {
    if month <= 1 then 0 else DaysBeforeMonth(year, month - 1) + DaysInMonth(year, month - 1)
  }

  /** How many days after the epoch a date is. */
  function DayNumber(date: Date): int {
    DaysBeforeYear(date.year) + DaysBeforeMonth(date.year, date.month) + date.day - 1
  }

  lemma MonthTable(year: int)
    ensures var leap := if IsLeap(year) then 1 else 0;
            && DaysBeforeMonth(year, 1) == 0 && DaysBeforeMonth(year, 2) == 31
            && DaysBeforeMonth(year, 3) == 59 + leap && DaysBeforeMonth(year, 4) == 90 + leap
            && DaysBeforeMonth(year, 5) == 120 + leap && DaysBeforeMonth(year, 6) == 151 + leap
            && DaysBeforeMonth(year, 7) == 181 + leap && DaysBeforeMonth(year, 8) == 212 + leap
            && DaysBeforeMonth(year, 9) == 243 + leap && DaysBeforeMonth(year, 10) == 273 + leap
            && DaysBeforeMonth(year, 11) == 304 + leap && DaysBeforeMonth(year, 12) == 334 + leap
  {
    assert DaysBeforeMonth(year, 2) == 31;
    assert DaysBeforeMonth(year, 4) == DaysBeforeMonth(year, 3) + 31;
    assert DaysBeforeMonth(year, 6) == DaysBeforeMonth(year, 5) + 31;
    assert DaysBeforeMonth(year, 8) == DaysBeforeMonth(year, 7) + 31;
    assert DaysBeforeMonth(year, 10) == DaysBeforeMonth(year, 9) + 30;
    assert DaysBeforeMonth(year, 12) == DaysBeforeMonth(year, 11) + 30;
  }

  /** The next day is valid, and one day later. */
  lemma NextDayIsOneLater(date: Date)
    requires Valid(date) && date.year >= 1970
    ensures Valid(NextDay(date)) && NextDay(date).year >= 1970
    ensures DayNumber(NextDay(date)) == DayNumber(date) + 1
  {
    MonthTable(date.year);
    MonthTable(date.year + 1);
  }

  lemma {:induction false} DateAfterCounts(days: nat)
    ensures Valid(DateAfter(days)) && DateAfter(days).year >= 1970 && DayNumber(DateAfter(days)) == days
  {
    if days > 0 {
      DateAfterCounts(days - 1);
      NextDayIsOneLater(DateAfter(days - 1));
    }
  }

  lemma {:induction false} YearsPass(a: int, b: int)
    requires 1970 <= a < b
    ensures DaysBeforeYear(a) + YearLength(a) <= DaysBeforeYear(b)
    decreases b
  {
    if a < b - 1 {
      YearsPass(a, b - 1);
    }
  }

  lemma MonthsPass(year: int, a: int, b: int)
    requires 1 <= a < b <= 13
    ensures DaysBeforeMonth(year, a) + DaysInMonth(year, a) <= DaysBeforeMonth(year, b)
    decreases b
  {
    if a < b - 1 {
      MonthsPass(year, a, b - 1);
    }
  }

  /** Later dates have larger day numbers, so a day number names one date. */
  lemma DayNumberIsStrict(a: Date, b: Date)
    requires Valid(a) && Valid(b) && 1970 <= a.year && Before(a, b)
    ensures DayNumber(a) < DayNumber(b)
  {
    MonthTable(a.year);
    MonthTable(b.year);
    if a.year < b.year {
      YearsPass(a.year, b.year);
    } else if a.month < b.month {
      MonthsPass(a.year, a.month, b.month);
    }
  }

  lemma DayNumberNamesOneDate(a: Date, b: Date)
    requires Valid(a) && Valid(b) && 1970 <= a.year && 1970 <= b.year && DayNumber(a) == DayNumber(b)
    ensures a == b
  {
    if a != b {
      if Before(a, b) {
        DayNumberIsStrict(a, b);
      } else {
        DayNumberIsStrict(b, a);
      }
    }
  }

  // ---- The arithmetic ----

  newtype i64 = n: int | -0x8000_0000_0000_0000 <= n < 0x8000_0000_0000_0000

  const I64_MAX: i64 := 0x7FFF_FFFF_FFFF_FFFF

  function YearOfEra(dayOfEra: i64): i64
    requires 0 <= dayOfEra < 146_097
  {
    (dayOfEra - dayOfEra / 1_460 + dayOfEra / 36_524 - dayOfEra / 146_096) / 365
  }

  function DayOfYear(dayOfEra: i64, yearOfEra: i64): i64
    requires 0 <= dayOfEra < 146_097 && 0 <= yearOfEra < 400
  {
    dayOfEra - (365 * yearOfEra + yearOfEra / 4 - yearOfEra / 100)
  }

  /** The civil date of a day count. No step overflows while the first does not, and nothing unsigned
      goes negative. */
  function CivilFromDays(days: i64): (i64, u32, u32)
    requires 0 <= days <= I64_MAX - 719_468
  {
    var z := days + 719_468;
    var era := z / 146_097;
    var dayOfEra := z % 146_097;
    YearOfEraIsRight(dayOfEra);
    var yearOfEra := YearOfEra(dayOfEra);
    var year := yearOfEra + era * 400;
    var dayOfYear := DayOfYear(dayOfEra, yearOfEra);
    var shiftedMonth := (5 * dayOfYear + 2) / 153;
    var day := (dayOfYear - (153 * shiftedMonth + 2) / 5 + 1) as u32;
    var month := (if shiftedMonth < 10 then shiftedMonth + 3 else shiftedMonth - 9) as u32;
    (if month <= 2 then year + 1 else year, month, day)
  }

  /** Where a day falls in its era: century, olympiad, year and day of the year from March. */
  datatype Place = Place(century: int, olympiad: int, year: int, day: int) {
    predicate Valid() {
      && 0 <= century < 4 && 0 <= olympiad < 25 && 0 <= year < 4
      && 0 <= day <= 365 && (day == 365 ==> LongYear())
    }

    /** The February that ends this year has a leap day. */
    predicate LongYear() {
      year == 3 && (olympiad != 24 || century == 3)
    }

    function Years(): int { 100 * century + 4 * olympiad + year }

    function Days(): int { 36_524 * century + 1_461 * olympiad + 365 * year + day }
  }

  function PlaceOf(dayOfEra: int): (place: Place)
    requires 0 <= dayOfEra < 146_097
    ensures place.Valid() && place.Days() == dayOfEra
  {
    var century := Min(dayOfEra / 36_524, 3);
    var inCentury := dayOfEra - 36_524 * century;
    var olympiad := Min(inCentury / 1_461, 24);
    var inOlympiad := inCentury - 1_461 * olympiad;
    var year := Min(inOlympiad / 365, 3);
    Place(century, olympiad, year, inOlympiad - 365 * year)
  }

  lemma CenturyIsRight(place: Place)
    requires place.Valid()
    ensures place.Days() / 36_524 - place.Days() / 146_096 == place.century
  {
    var inCentury := 1_461 * place.olympiad + 365 * place.year + place.day;
    if inCentury < 36_524 {
      DivUnique(place.Days(), 36_524, place.century, inCentury);
      DivUnique(place.Days(), 146_096, 0, place.Days());
    } else {
      assert place.Days() == 146_096;
    }
  }

  /** The corrections in the formula cancel exactly: dividing by 365 finds the year. */
  lemma YearIsRight(place: Place)
    requires place.Valid()
    ensures var doe := place.Days();
            (doe - doe / 1_460 + doe / 36_524 - doe / 146_096) / 365 == place.Years()
  {
    var doe := place.Days();
    CenturyIsRight(place);
    var over := 24 * place.century + place.olympiad + 365 * place.year + place.day;
    var carry := if over < 1_460 then 0 else 1;
    DivUnique(doe, 1_460, 25 * place.century + place.olympiad + carry, over - 1_460 * carry);
    DivUnique(doe - doe / 1_460 + place.century, 365, place.Years(), place.day - carry);
  }

  lemma YearParts(place: Place)
    requires place.Valid()
    ensures place.Years() / 4 == 25 * place.century + place.olympiad
    ensures place.Years() / 100 == place.century
    ensures 0 <= place.Years() < 400
  {
    DivUnique(place.Years(), 4, 25 * place.century + place.olympiad, place.year);
    DivUnique(place.Years(), 100, place.century, 4 * place.olympiad + place.year);
  }

  lemma YearOfEraIsRight(dayOfEra: i64)
    requires 0 <= dayOfEra < 146_097
    ensures var place := PlaceOf(dayOfEra as int);
            && YearOfEra(dayOfEra) as int == place.Years()
            && 0 <= YearOfEra(dayOfEra) < 400
            && DayOfYear(dayOfEra, YearOfEra(dayOfEra)) as int == place.day
            && 0 <= place.day <= 365
  {
    var place := PlaceOf(dayOfEra as int);
    YearIsRight(place);
    YearParts(place);
  }

  function Month(shiftedMonth: int): int {
    if shiftedMonth < 10 then shiftedMonth + 3 else shiftedMonth - 9
  }

  /** Days of a year counted from March fall in the months they should. */
  lemma MonthOfDay(dayOfYear: int, leapAhead: bool)
    requires 0 <= dayOfYear <= 365 && (dayOfYear == 365 ==> leapAhead)
    ensures var shifted := (5 * dayOfYear + 2) / 153;
            var day := dayOfYear - (153 * shifted + 2) / 5 + 1;
            && 0 <= shifted < 12
            && 1 <= day <= (if shifted == 11 then if leapAhead then 29 else 28
                            else if Month(shifted) in {4, 6, 9, 11} then 30 else 31)
  {
  }

  /** The March-based year of a place in an era. */
  function MarchYear(era: int, place: Place): int {
    400 * era + place.Years()
  }

  lemma LeapAhead(era: int, place: Place)
    requires place.Valid()
    ensures IsLeap(MarchYear(era, place) + 1) <==> place.LongYear()
  {
    var next := MarchYear(era, place) + 1;
    var within := 4 * place.olympiad + place.year + 1;
    if place.year < 3 {
      DivUnique(next, 4, 100 * era + 25 * place.century + place.olympiad, place.year + 1);
    } else {
      DivUnique(next, 4, 100 * era + 25 * place.century + place.olympiad + 1, 0);
      if place.olympiad < 24 {
        DivUnique(next, 100, 4 * era + place.century, within);
      } else {
        DivUnique(next, 100, 4 * era + place.century + 1, 0);
        DivUnique(next, 400, if place.century < 3 then era else era + 1,
               if place.century < 3 then 100 * (place.century + 1) else 0);
      }
    }
  }

  function LeapsThrough(year: int): int {
    year / 4 - year / 100 + year / 400
  }

  lemma DivCountsMultiples(n: int, d: int)
    requires d > 1
    ensures n / d == (n - 1) / d + (if n % d == 0 then 1 else 0)
  {
    if n % d == 0 {
      DivUnique(n - 1, d, n / d - 1, d - 1);
    } else {
      DivUnique(n - 1, d, n / d, n % d - 1);
    }
  }

  lemma LeapsStep(year: int)
    ensures LeapsThrough(year) == LeapsThrough(year - 1) + (if IsLeap(year) then 1 else 0)
  {
    DivCountsMultiples(year, 4);
    DivCountsMultiples(year, 100);
    DivCountsMultiples(year, 400);
    if year % 100 == 0 {
      DivUnique(year, 4, 25 * (year / 100), 0);
    }
    if year % 400 == 0 {
      DivUnique(year, 100, 4 * (year / 400), 0);
    }
  }

  lemma {:induction false} DaysBeforeYearIs(year: int)
    requires year >= 1970
    ensures DaysBeforeYear(year) == 365 * (year - 1970) + LeapsThrough(year - 1) - LeapsThrough(1969)
    decreases year
  {
    if year > 1970 {
      DaysBeforeYearIs(year - 1);
      LeapsStep(year - 1);
    }
  }

  /** The days before the March that starts a place's year. */
  lemma DaysBeforeMarch(era: int, place: Place)
    requires place.Valid()
    ensures 365 * (MarchYear(era, place) - 1970) + LeapsThrough(MarchYear(era, place)) - LeapsThrough(1969) + 59
         == 146_097 * era + place.Days() - place.day - 719_468
  {
    var year := MarchYear(era, place);
    DivUnique(year, 4, 100 * era + 25 * place.century + place.olympiad, place.year);
    DivUnique(year, 100, 4 * era + place.century, 4 * place.olympiad + place.year);
    DivUnique(year, 400, era, place.Years());
  }

  function AsDate(civil: (i64, u32, u32)): Date {
    Date(civil.0 as int, civil.1 as int, civil.2 as int)
  }

  /** The date of a place in an era, months counted from March. */
  function PlaceDate(era: int, place: Place): Date {
    var shifted := (5 * place.day + 2) / 153;
    var month := Month(shifted);
    Date(MarchYear(era, place) + (if month <= 2 then 1 else 0), month, place.day - (153 * shifted + 2) / 5 + 1)
  }

  lemma CivilIsPlaceDate(days: i64)
    requires 0 <= days <= I64_MAX - 719_468
    ensures var z := days as int + 719_468;
            AsDate(CivilFromDays(days)) == PlaceDate(z / 146_097, PlaceOf(z % 146_097))
  {
    YearOfEraIsRight((days + 719_468) % 146_097);
  }

  lemma MonthsFromMarch(year: int, shifted: int)
    requires 0 <= shifted < 10
    ensures DaysBeforeMonth(year, Month(shifted)) == 59 + (if IsLeap(year) then 1 else 0) + (153 * shifted + 2) / 5
  {
    MonthTable(year);
  }

  /** From March to December the year is the March year; the days before its months are those before
      March and those of the months since. */
  lemma LateDateCounts(era: int, place: Place)
    requires place.Valid() && place.day < 306 && MarchYear(era, place) >= 1970
    ensures DayNumber(PlaceDate(era, place)) == 146_097 * era + place.Days() - 719_468
  {
    var year, shifted := MarchYear(era, place), (5 * place.day + 2) / 153;
    assert 0 <= shifted < 10;
    DaysBeforeMarch(era, place);
    DaysBeforeYearIs(year);
    LeapsStep(year);
    MonthsFromMarch(year, shifted);
  }

  lemma EarlyDateCounts(era: int, place: Place)
    requires place.Valid() && place.day >= 306 && MarchYear(era, place) >= 1969
    ensures DayNumber(PlaceDate(era, place)) == 146_097 * era + place.Days() - 719_468
  {
    var year, shifted := MarchYear(era, place), (5 * place.day + 2) / 153;
    assert 10 <= shifted < 12;
    DaysBeforeMarch(era, place);
    DaysBeforeYearIs(year + 1);
    MonthTable(year + 1);
    assert DaysBeforeMonth(year + 1, Month(shifted)) + 306 == (153 * shifted + 2) / 5;
  }

  lemma PlaceDateIsValid(era: int, place: Place)
    requires place.Valid()
    ensures Valid(PlaceDate(era, place))
  {
    MonthOfDay(place.day, place.LongYear());
    LeapAhead(era, place);
  }

  /** A day count from the epoch on falls no earlier than January 1970. */
  lemma PlaceFromEpoch(era: int, place: Place)
    requires place.Valid() && 146_097 * era + place.Days() >= 719_468
    ensures MarchYear(era, place) >= if place.day < 306 then 1970 else 1969
  {
    assert era >= 4;
    if era == 4 {
      assert place.century == 3;
      assert place.olympiad >= 17;
      assert place.olympiad == 17 ==> place.year >= 1;
    }
  }

  lemma PlaceDateCounts(era: int, place: Place)
    requires place.Valid() && 146_097 * era + place.Days() >= 719_468
    ensures Valid(PlaceDate(era, place)) && PlaceDate(era, place).year >= 1970
    ensures DayNumber(PlaceDate(era, place)) == 146_097 * era + place.Days() - 719_468
  {
    PlaceFromEpoch(era, place);
    PlaceDateIsValid(era, place);
    if place.day < 306 {
      LateDateCounts(era, place);
    } else {
      EarlyDateCounts(era, place);
    }
  }

  /** The arithmetic is the calendar: a day count maps to the one valid date that many days after the
      epoch, which is the one reached by stepping a day at a time. */
  lemma CivilFromDaysIsTheCalendar(days: i64)
    requires 0 <= days <= I64_MAX - 719_468
    ensures var date := AsDate(CivilFromDays(days));
            && Valid(date) && date.year >= 1970 && DayNumber(date) == days as int
            && date == DateAfter(days as nat)
            && forall other | Valid(other) && other.year >= 1970 && DayNumber(other) == days as int :: other == date
  {
    var z := days as int + 719_468;
    CivilIsPlaceDate(days);
    PlaceDateCounts(z / 146_097, PlaceOf(z % 146_097));
    var date := AsDate(CivilFromDays(days));
    DateAfterCounts(days as nat);
    DayNumberNamesOneDate(date, DateAfter(days as nat));
    forall other | Valid(other) && other.year >= 1970 && DayNumber(other) == days as int ensures other == date {
      DayNumberNamesOneDate(other, date);
    }
  }

  /** Later days have later dates. */
  lemma CivilFromDaysIsStrict(a: i64, b: i64)
    requires 0 <= a < b <= I64_MAX - 719_468
    ensures Before(AsDate(CivilFromDays(a)), AsDate(CivilFromDays(b)))
  {
    CivilFromDaysIsTheCalendar(a);
    CivilFromDaysIsTheCalendar(b);
    var first, second := AsDate(CivilFromDays(a)), AsDate(CivilFromDays(b));
    if Before(second, first) {
      DayNumberIsStrict(second, first);
    }
  }

  /** Every valid date from the epoch on that the count can reach is some day's date. */
  lemma EveryDateIsReached(date: Date)
    requires Valid(date) && date.year >= 1970 && DayNumber(date) <= I64_MAX as int - 719_468
    ensures DayNumber(date) >= 0 && AsDate(CivilFromDays(DayNumber(date) as i64)) == date
  {
    if date != EPOCH {
      DayNumberIsStrict(EPOCH, date);
    }
    CivilFromDaysIsTheCalendar(DayNumber(date) as i64);
  }

  // ---- The text ----

  function Digit(n: int): char
    requires 0 <= n < 10
  {
    (n + '0' as int) as char
  }

  function Decimal(n: nat): string {
    if n < 10 then [Digit(n)] else Decimal(n / 10) + [Digit(n % 10)]
  }

  /** Zero-padded to a least width. */
  function Padded(n: nat, width: nat): string
    decreases width - |Decimal(n)|
  {
    Zeros(width - |Decimal(n)|) + Decimal(n)
  }

  function Zeros(count: int): string {
    if count <= 0 then "" else "0" + Zeros(count - 1)
  }

  function Tail(month: nat, day: nat, hour: nat, minute: nat, second: nat): string {
    "-" + Padded(month, 2) + "-" + Padded(day, 2) + "T" + Padded(hour, 2) + ":" + Padded(minute, 2) + ":"
    + Padded(second, 2) + "Z"
  }

  function FormatTimestamp(millis: u64): string {
    var seconds := millis / 1_000;
    var days := (seconds / 86_400) as i64;
    var time := seconds % 86_400;
    var (year, month, day) := CivilFromDays(days);
    CivilFromDaysIsTheCalendar(days);
    Padded(year as nat, 4)
    + Tail(month as nat, day as nat, (time / 3_600) as nat, (time % 3_600 / 60) as nat, (time % 60) as nat)
  }

  // ---- Reading it back ----

  /** The value of a run of digits. */
  function Value(text: string): Option<nat> {
    if text == "" then Some(0)
    else
      var last := text[|text| - 1];
      match Value(text[..|text| - 1])
      case Some(front) => if '0' <= last <= '9' then Some(10 * front + (last as int - '0' as int)) else None
      case None => None
  }

  /** The second a timestamp of the form of section 5.6 of RFC 3339 names, in UTC; the year may have more
      than four digits. */
  function ParseTimestamp(text: string): Option<int> {
    if |text| < 20 then None
    else
      var tail := text[|text| - 16..];
      if !(&& tail[0] == '-' && tail[3] == '-' && tail[6] == 'T' && tail[9] == ':' && tail[12] == ':'
           && tail[15] == 'Z') then None
      else ParseFields(Value(text[..|text| - 16]), Value(tail[1..3]), Value(tail[4..6]), Value(tail[7..9]),
                       Value(tail[10..12]), Value(tail[13..15]))
  }

  function ParseFields(year: Option<nat>, month: Option<nat>, day: Option<nat>, hour: Option<nat>,
                       minute: Option<nat>, second: Option<nat>): Option<int>
  {
    match (year, month, day, hour, minute, second)
    case (Some(y), Some(mo), Some(d), Some(h), Some(mi), Some(s)) =>
      if Valid(Date(y, mo, d)) && y >= 1970 && h < 24 && mi < 60 && s < 60
      then Some(86_400 * DayNumber(Date(y, mo, d)) + 3_600 * h + 60 * mi + s)
      else None
    case _ => None
  }

  lemma {:induction false} ValueOfDecimal(n: nat)
    ensures Value(Decimal(n)) == Some(n)
  {
    if n >= 10 {
      ValueOfDecimal(n / 10);
      var text := Decimal(n);
      assert text[..|text| - 1] == Decimal(n / 10);
    } else {
      assert Decimal(n)[..0] == "";
    }
  }

  lemma {:induction false} ValueOfZeros(count: int, text: string)
    ensures Value(Zeros(count) + text) == Value(text)
    decreases count
  {
    if count <= 0 {
      assert "" + text == text;
    } else {
      ValueOfZeros(count - 1, text);
      ValueOfZero(Zeros(count - 1) + text);
      assert Zeros(count) + text == "0" + (Zeros(count - 1) + text);
    }
  }

  lemma {:induction false} ValueOfZero(text: string)
    ensures Value("0" + text) == Value(text)
  {
    if text != "" {
      ValueOfZero(text[..|text| - 1]);
      assert ("0" + text)[..|text|] == "0" + text[..|text| - 1];
    } else {
      assert ("0" + text)[..0] == "";
    }
  }

  lemma {:induction false} ZerosLength(count: int)
    ensures |Zeros(count)| == if count <= 0 then 0 else count
    decreases count
  {
    if count > 0 {
      ZerosLength(count - 1);
    }
  }

  lemma PaddedReads(n: nat, width: nat)
    ensures Value(Padded(n, width)) == Some(n)
  {
    var digits := Decimal(n);
    ValueOfDecimal(n);
    ValueOfZeros(width - |digits|, digits);
  }

  lemma PaddedLength(n: nat, width: nat)
    ensures |Padded(n, width)| == if |Decimal(n)| < width then width else |Decimal(n)|
  {
    ZerosLength(width - |Decimal(n)|);
  }

  lemma DecimalLength(n: nat)
    ensures |Decimal(n)| >= 1
    ensures n < 10 <==> |Decimal(n)| == 1
    ensures n >= 10 ==> |Decimal(n)| == |Decimal(n / 10)| + 1
  {
  }

  lemma FourDigits(n: nat)
    ensures |Decimal(n)| <= 4 <==> n < 10_000
  {
    DecimalLength(n);
    DecimalLength(n / 10);
    DecimalLength(n / 10 / 10);
    DecimalLength(n / 10 / 10 / 10);
  }

  lemma TwoDigits(n: nat)
    requires n < 100
    ensures |Padded(n, 2)| == 2 && Value(Padded(n, 2)) == Some(n)
  {
    PaddedReads(n, 2);
    PaddedLength(n, 2);
    DecimalLength(n);
    DecimalLength(n / 10);
  }

  lemma TailSplits(month: string, day: string, hour: string, minute: string, second: string)
    requires |month| == 2 && |day| == 2 && |hour| == 2 && |minute| == 2 && |second| == 2
    ensures var tail := "-" + month + "-" + day + "T" + hour + ":" + minute + ":" + second + "Z";
            && |tail| == 16
            && tail[0] == '-' && tail[3] == '-' && tail[6] == 'T' && tail[9] == ':' && tail[12] == ':'
            && tail[15] == 'Z'
            && tail[1..3] == month && tail[4..6] == day && tail[7..9] == hour && tail[10..12] == minute
            && tail[13..15] == second
  {
  }

  lemma TextReads(text: string, year: nat, month: nat, day: nat, hour: nat, minute: nat, second: nat,
                  parsed: Option<int>)
    requires month < 100 && day < 100 && hour < 100 && minute < 100 && second < 100
    requires text == Padded(year, 4) + Tail(month, day, hour, minute, second)
    requires parsed == ParseFields(Some(year), Some(month), Some(day), Some(hour), Some(minute), Some(second))
    ensures ParseTimestamp(text) == parsed
    ensures |text| == 20 <==> year < 10_000
  {
    TwoDigits(month);
    TwoDigits(day);
    TwoDigits(hour);
    TwoDigits(minute);
    TwoDigits(second);
    TailSplits(Padded(month, 2), Padded(day, 2), Padded(hour, 2), Padded(minute, 2), Padded(second, 2));
    var front, tail := Padded(year, 4), Tail(month, day, hour, minute, second);
    PaddedReads(year, 4);
    PaddedLength(year, 4);
    FourDigits(year);
    SplitsAfter(front, tail);
  }

  lemma ClockSplits(time: int)
    requires 0 <= time < 86_400
    ensures 0 <= time / 3_600 < 24 && 0 <= time % 3_600 / 60 < 60 && 0 <= time % 60 < 60
    ensures 3_600 * (time / 3_600) + 60 * (time % 3_600 / 60) + time % 60 == time
  {
    var inHour := time % 3_600;
    DivUnique(time, 60, 60 * (time / 3_600) + inHour / 60, inHour % 60);
  }

  lemma FieldsRead(date: Date, hour: nat, minute: nat, second: nat)
    requires Valid(date) && date.year >= 1970 && hour < 24 && minute < 60 && second < 60
    ensures ParseFields(Some(date.year), Some(date.month), Some(date.day), Some(hour), Some(minute), Some(second))
         == Some(86_400 * DayNumber(date) + 3_600 * hour + 60 * minute + second)
  {
  }

  lemma DateTextReads(text: string, date: Date, hour: nat, minute: nat, second: nat, seconds: int)
    requires Valid(date) && date.year >= 1970 && hour < 24 && minute < 60 && second < 60
    requires text == Padded(date.year, 4) + Tail(date.month, date.day, hour, minute, second)
    requires seconds == 86_400 * DayNumber(date) + 3_600 * hour + 60 * minute + second
    ensures ParseTimestamp(text) == Some(seconds)
    ensures |text| == 20 <==> date.year < 10_000
  {
    FieldsRead(date, hour, minute, second);
    TextReads(text, date.year, date.month, date.day, hour, minute, second, Some(seconds));
  }

  function DayOf(millis: u64): i64 {
    (millis / 1_000 / 86_400) as i64
  }

  lemma WholeSeconds(millis: u64)
    ensures 86_400 * (DayOf(millis) as int) + millis as int / 1_000 % 86_400 == millis as int / 1_000
  {
    var seconds := millis / 1_000;
    assert (seconds / 86_400) as int == seconds as int / 86_400;
    assert seconds as int == 86_400 * (seconds as int / 86_400) + seconds as int % 86_400;
  }

  /** The text is that of the day's date and of the clock's time, which make up the second. */
  lemma FormatFields(millis: u64) returns (date: Date, hour: nat, minute: nat, second: nat)
    ensures date == AsDate(CivilFromDays(DayOf(millis))) && Valid(date) && date.year >= 1970
    ensures hour < 24 && minute < 60 && second < 60
    ensures 86_400 * DayNumber(date) + 3_600 * hour + 60 * minute + second == millis as int / 1_000
    ensures FormatTimestamp(millis) == Padded(date.year, 4) + Tail(date.month, date.day, hour, minute, second)
  {
    CivilFromDaysIsTheCalendar(DayOf(millis));
    date := AsDate(CivilFromDays(DayOf(millis)));
    var time := millis as int / 1_000 % 86_400;
    ClockSplits(time);
    WholeSeconds(millis);
    hour, minute, second := time / 3_600, time % 3_600 / 60, time % 60;
  }

  /** The text reads back as the second it was made from, for every timestamp; it has the twenty
      characters of the RFC 3339 form exactly when the year has four digits. */
  lemma FormatReadsBack(millis: u64)
    ensures ParseTimestamp(FormatTimestamp(millis)) == Some(millis as int / 1_000)
    ensures |FormatTimestamp(millis)| == 20 <==> AsDate(CivilFromDays(DayOf(millis))).year < 10_000
  {
    var date, hour, minute, second := FormatFields(millis);
    DateTextReads(FormatTimestamp(millis), date, hour, minute, second, millis as int / 1_000);
  }
}
