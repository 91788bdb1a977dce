/** The UTC timestamps of `validation.ts`: what is accepted, and the exact instant it stands for. */
module Timestamps {
  import opened Results

  datatype Fields = Fields(year: nat, month: nat, day: nat, hour: nat, minute: nat, second: nat, fraction: string)

  // ---------------------------------------------------------------- reading

  predicate AllDigits(s: string) {
    forall i :: 0 <= i < |s| ==> '0' <= s[i] <= '9'
  }

  function Number(s: string): nat
    requires AllDigits(s)
  {
    if s == [] then 0 else 10 * Number(s[..|s| - 1]) + (s[|s| - 1] - '0') as nat
  }

  function DigitRun(s: string): (n: nat)
    ensures n <= |s| && AllDigits(s[..n])
    ensures n < |s| ==> !('0' <= s[n] <= '9')
  {
    if s == [] || !('0' <= s[0] <= '9') then 0
    else
      var n := DigitRun(s[1..]);
      assert s[..n + 1] == [s[0]] + s[1..][..n];
      n + 1
  }

  predicate IsUtcSuffix(s: string) { s == "Z" || s == "+00:00" }

  /** The fraction digits of what follows the seconds, if that part has its form. */
  function ReadTail(tail: string): (r: Option<string>)
    ensures r.Some? ==> |r.value| <= 9 && AllDigits(r.value)
  {
    if tail != [] && tail[0] == '.' then
      var n := DigitRun(tail[1..]);
      if 1 <= n <= 9 && IsUtcSuffix(tail[1 + n..]) then Some(tail[1..][..n]) else None
    else if IsUtcSuffix(tail) then Some("")
    else None
  }

  /** `YYYY-MM-DDThh:mm:ss`, an optional fraction of one to nine digits, and `Z` or `+00:00`. */
  function ReadFields(v: string): Option<Fields> {
    if |v| < 20 then None
    else if v[4] != '-' || v[7] != '-' || v[10] != 'T' || v[13] != ':' || v[16] != ':' then None
    else if !AllDigits(v[..4]) || !AllDigits(v[5..7]) || !AllDigits(v[8..10]) || !AllDigits(v[11..13]) ||
            !AllDigits(v[14..16]) || !AllDigits(v[17..19]) then None
    else
      match ReadTail(v[19..])
      case None => None
      case Some(fraction) => Some(Fields(Number(v[..4]), Number(v[5..7]), Number(v[8..10]), Number(v[11..13]),
                                         Number(v[14..16]), Number(v[17..19]), fraction))
  }

  predicate IsLeapYear(year: nat) {
    year % 4 == 0 && (year % 100 != 0 || year % 400 == 0)
  }

  function MonthLength(year: nat, month: nat): nat
    requires 1 <= month <= 12
  {
    [31, if IsLeapYear(year) then 29 else 28, 31, 30, 31, 30, 31, 31, 30, 31, 30, 31][month - 1]
  }

  predicate ValidDate(year: nat, month: nat, day: nat) {
    1 <= month <= 12 && 1 <= day <= MonthLength(year, month)
  }

  /** A second of 60 is let through, whatever the minute. */
  predicate ValidFields(f: Fields) {
    ValidDate(f.year, f.month, f.day) && f.hour <= 23 && f.minute <= 59 && f.second <= 60 && |f.fraction| <= 9 &&
      AllDigits(f.fraction)
  }

  predicate IsUtcRfc3339Timestamp(v: string) {
    ReadFields(v).Some? && ValidFields(ReadFields(v).value)
  }

  // ---------------------------------------------------------------- the instant

  /** The era arithmetic of the source, with its floor divisions. */
  function DaysFromCivil(year: int, month: int, day: int): int {
    var shiftedYear := if month <= 2 then year - 1 else year;
    var era := (if shiftedYear >= 0 then shiftedYear else shiftedYear - 399) / 400;
    var yearOfEra := shiftedYear - era * 400;
    var monthOfYear := (month + 9) % 12;
    var dayOfYear := (153 * monthOfYear + 2) / 5 + day - 1;
    var dayOfEra := yearOfEra * 365 + yearOfEra / 4 - yearOfEra / 100 + dayOfYear;
    era * 146097 + dayOfEra - 719468
  }

  function Zeros(n: nat): string { if n == 0 then "" else Zeros(n - 1) + "0" }

  lemma {:induction false} ZerosAreDigits(n: nat)
    ensures |Zeros(n)| == n && AllDigits(Zeros(n))
  {
    if n > 0 { ZerosAreDigits(n - 1); }
  }

  /** The fraction padded on the right to nine digits. */
  function FractionNanos(fraction: string): nat
    requires |fraction| <= 9 && AllDigits(fraction)
  {
    ZerosAreDigits(9 - |fraction|);
    Number(fraction + Zeros(9 - |fraction|))
  }

  function Nanoseconds(f: Fields): int
    requires |f.fraction| <= 9 && AllDigits(f.fraction)
  {
    (DaysFromCivil(f.year, f.month, f.day) * 86400 + f.hour * 3600 + f.minute * 60 + f.second) * 1_000_000_000 +
      FractionNanos(f.fraction)
  }

  /** `None` where the source throws. */
  function UtcRfc3339ToNanoseconds(v: string): Option<int> {
    if IsUtcRfc3339Timestamp(v) then Some(Nanoseconds(ReadFields(v).value)) else None
  }

  function CompareUtcRfc3339Timestamps(left: string, right: string): Option<int> {
    match (UtcRfc3339ToNanoseconds(left), UtcRfc3339ToNanoseconds(right))
    case (Some(l), Some(r)) => Some(if l < r then -1 else if l > r then 1 else 0)
    case _ => None
  }

  // ---------------------------------------------------------------- the calendar, counted out

  function YearLength(year: nat): nat { if IsLeapYear(year) then 366 else 365 }

  /** Days in the years 0 up to but without `year`. */
  function DaysBeforeYear(year: nat): nat {
    if year == 0 then 0 else DaysBeforeYear(year - 1) + YearLength(year - 1)
  }

  /** Days in the months of `year` before `month`. */
  function DaysBeforeMonth(year: nat, month: nat): nat
    requires 1 <= month <= 13
  {
    if month == 1 then 0 else DaysBeforeMonth(year, month - 1) + MonthLength(year, month - 1)
  }

  /** Days from 1970-01-01, by summing the lengths of years and months. */
  function CountedDays(year: nat, month: nat, day: nat): int
    requires ValidDate(year, month, day)
  {
    DaysBeforeYear(year) - DaysBeforeYear(1970) + DaysBeforeMonth(year, month) + day - 1
  }

  function LeapsUpTo(n: nat): int { n / 4 - n / 100 + n / 400 }

  lemma {:induction false} DaysBeforeYearClosed(year: nat)
    ensures DaysBeforeYear(year) == 365 * year + if year == 0 then 0 else LeapsUpTo(year - 1) + 1
  {
    if year > 0 {
      DaysBeforeYearClosed(year - 1);
      if year > 1 {
        LeapStep(year - 1);
      }
    }
  }

  lemma LeapStep(n: nat)
    requires n > 0
    ensures LeapsUpTo(n) == LeapsUpTo(n - 1) + if IsLeapYear(n) then 1 else 0
  {
    MultipleStep(n, 4);
    MultipleStep(n, 100);
    MultipleStep(n, 400);
    assert n % 100 == 0 ==> n % 4 == 0;
    assert n % 400 == 0 ==> n % 100 == 0;
  }

  lemma MultipleStep(n: nat, k: nat)
    requires n > 0 && (k == 4 || k == 100 || k == 400)
    ensures n / k == (n - 1) / k + if n % k == 0 then 1 else 0
  {
  }

  /** Days before a month in closed form, counting from March. */
  function MonthOffset(month: nat): int { (153 * ((month + 9) % 12) + 2) / 5 }

  lemma MonthStep(year: nat, month: nat)
    requires 2 <= month <= 12 && month != 3
    ensures MonthOffset(month) == MonthOffset(month - 1) + MonthLength(year, month - 1)
  {
  }

  lemma {:induction false} MonthsClosed(year: nat, month: nat)
    requires 1 <= month <= 12
    ensures DaysBeforeMonth(year, month) == if month <= 2 then MonthOffset(month) - 306
      else MonthOffset(month) + 59 + if IsLeapYear(year) then 1 else 0
  {
    if month > 1 {
      MonthsClosed(year, month - 1);
      if month != 3 {
        MonthStep(year, month);
      } else {
        assert MonthOffset(2) == 337 && MonthOffset(3) == 0;
      }
    }
  }

  lemma EraClosed(s: int)
    requires s >= -1
    ensures var era := (if s >= 0 then s else s - 399) / 400; var y := s - era * 400;
      era * 146097 + (y * 365 + y / 4 - y / 100) == 365 * s + if s >= 0 then LeapsUpTo(s) else -1
  {
    if s >= 0 {
      var era, y := s / 400, s % 400;
      assert s == 400 * era + y;
      assert s / 4 == 100 * era + y / 4;
      assert s / 100 == 4 * era + y / 100;
    }
  }

  /** The closed form of the source, by its shifted year. */
  lemma DaysFromCivilClosed(year: nat, month: nat, day: nat)
    requires 1 <= month <= 12
    ensures var s := if month <= 2 then year - 1 else year;
      DaysFromCivil(year, month, day) == 365 * s + (if s >= 0 then LeapsUpTo(s) else -1) + MonthOffset(month) +
        day - 1 - 719468
  {
    EraClosed(if month <= 2 then year - 1 else year);
  }

  /** The arithmetic of the source counts days exactly, for every valid date from year 0 on. */
  lemma DaysFromCivilIsExact(year: nat, month: nat, day: nat)
    requires ValidDate(year, month, day)
    ensures DaysFromCivil(year, month, day) == CountedDays(year, month, day)
  {
    DaysFromCivilClosed(year, month, day);
    MonthsClosed(year, month);
    DaysBeforeYearClosed(year);
    DaysBeforeYearClosed(1970);
    if month > 2 && year > 0 {
      LeapStep(year);
    }
  }

  // ---------------------------------------------------------------- order

  /** Field by field, the fraction by its value at nine digits. */
  predicate FieldsLt(a: Fields, b: Fields)
    requires ValidFields(a) && ValidFields(b)
  {
    if a.year != b.year then a.year < b.year
    else if a.month != b.month then a.month < b.month
    else if a.day != b.day then a.day < b.day
    else if a.hour != b.hour then a.hour < b.hour
    else if a.minute != b.minute then a.minute < b.minute
    else if a.second != b.second then a.second < b.second
    else FractionNanos(a.fraction) < FractionNanos(b.fraction)
  }

  lemma {:induction false} YearsAscend(a: nat, b: nat)
    requires a < b
    ensures DaysBeforeYear(a) + YearLength(a) <= DaysBeforeYear(b)
  {
    if a < b - 1 {
      YearsAscend(a, b - 1);
    }
  }

  lemma {:induction false} MonthsAscend(year: nat, a: nat, b: nat)
    requires 1 <= a < b <= 13
    ensures DaysBeforeMonth(year, a) + MonthLength(year, a) <= DaysBeforeMonth(year, b)
  {
    if a < b - 1 {
      MonthsAscend(year, a, b - 1);
    }
  }

  lemma YearIsItsMonths(year: nat)
    ensures DaysBeforeMonth(year, 13) == YearLength(year)
  {
    MonthsClosed(year, 12);
    assert DaysBeforeMonth(year, 13) == DaysBeforeMonth(year, 12) + 31;
  }

  lemma DatesAscend(a: Fields, b: Fields)
    requires ValidFields(a) && ValidFields(b)
    requires a.year < b.year || (a.year == b.year && (a.month < b.month || (a.month == b.month && a.day < b.day)))
    ensures CountedDays(a.year, a.month, a.day) < CountedDays(b.year, b.month, b.day)
  {
    if a.year < b.year {
      YearsAscend(a.year, b.year);
      MonthsAscend(a.year, a.month, 13);
      YearIsItsMonths(a.year);
    } else if a.month < b.month {
      MonthsAscend(a.year, a.month, b.month);
    }
  }

  lemma {:induction false} NumberBelow(s: string, bound: nat)
    requires AllDigits(s) && bound == Pow10(|s|)
    ensures Number(s) < bound
  {
    if s != [] {
      NumberBelow(s[..|s| - 1], Pow10(|s| - 1));
    }
  }

  function Pow10(n: nat): nat { if n == 0 then 1 else 10 * Pow10(n - 1) }

  lemma FractionBelowSecond(fraction: string)
    requires |fraction| <= 9 && AllDigits(fraction)
    ensures FractionNanos(fraction) < 1_000_000_000
  {
    var padded := fraction + Zeros(9 - |fraction|);
    ZerosAreDigits(9 - |fraction|);
    assert Pow10(9) == 1_000_000_000;
    NumberBelow(padded, Pow10(9));
  }

  lemma EarlierFieldsEarlierInstant(a: Fields, b: Fields)
    requires ValidFields(a) && ValidFields(b) && a.second <= 59 && b.second <= 59
    requires FieldsLt(a, b)
    ensures Nanoseconds(a) < Nanoseconds(b)
  {
    DaysFromCivilIsExact(a.year, a.month, a.day);
    DaysFromCivilIsExact(b.year, b.month, b.day);
    FractionBelowSecond(a.fraction);
    FractionBelowSecond(b.fraction);
    if a.year != b.year || a.month != b.month || a.day != b.day {
      DatesAscend(a, b);
    }
  }

  /** Without leap seconds, instants are ordered exactly as the fields of the timestamps are. */
  lemma ComparisonFollowsFields(left: string, right: string)
    requires IsUtcRfc3339Timestamp(left) && IsUtcRfc3339Timestamp(right)
    requires ReadFields(left).value.second <= 59 && ReadFields(right).value.second <= 59
    ensures var a, b := ReadFields(left).value, ReadFields(right).value;
      CompareUtcRfc3339Timestamps(left, right) == Some(if FieldsLt(a, b) then -1 else if FieldsLt(b, a) then 1 else 0)
  {
    var a, b := ReadFields(left).value, ReadFields(right).value;
    if FieldsLt(a, b) {
      EarlierFieldsEarlierInstant(a, b);
    } else if FieldsLt(b, a) {
      EarlierFieldsEarlierInstant(b, a);
    }
  }

  // ---------------------------------------------------------------- second 60

  function NextDate(year: nat, month: nat, day: nat): (nat, nat, nat)
    requires ValidDate(year, month, day)
  {
    if day < MonthLength(year, month) then (year, month, day + 1)
    else if month < 12 then (year, month + 1, 1)
    else (year + 1, 1, 1)
  }

  /** The start of the minute after the one of `f`, with the same fraction. */
  function NextMinute(f: Fields): Fields
    requires ValidFields(f)
  {
    if f.minute < 59 then f.(minute := f.minute + 1, second := 0)
    else if f.hour < 23 then f.(hour := f.hour + 1, minute := 0, second := 0)
    else
      var (y, m, d) := NextDate(f.year, f.month, f.day);
      Fields(y, m, d, 0, 0, 0, f.fraction)
  }

  lemma NextDateIsNextDay(year: nat, month: nat, day: nat)
    requires ValidDate(year, month, day)
    ensures var (y, m, d) := NextDate(year, month, day);
      ValidDate(y, m, d) && CountedDays(y, m, d) == CountedDays(year, month, day) + 1
  {
    if day == MonthLength(year, month) && month == 12 {
      YearIsItsMonths(year);
      assert DaysBeforeMonth(year, 13) == DaysBeforeMonth(year, 12) + MonthLength(year, 12);
    } else if day == MonthLength(year, month) {
      assert DaysBeforeMonth(year, month + 1) == DaysBeforeMonth(year, month) + MonthLength(year, month);
    }
  }

  /** A second of 60 is the start of the next minute, across hours, days, months and years. */
  lemma LeapSecondIsNextMinute(f: Fields)
    requires ValidFields(f) && f.second == 60
    ensures ValidFields(NextMinute(f)) && Nanoseconds(f) == Nanoseconds(NextMinute(f))
  {
    if f.minute == 59 && f.hour == 23 {
      var (y, m, d) := NextDate(f.year, f.month, f.day);
      NextDateIsNextDay(f.year, f.month, f.day);
      DaysFromCivilIsExact(f.year, f.month, f.day);
      DaysFromCivilIsExact(y, m, d);
    }
  }
}
