/**
 * The parts of `java.time` the money calculator relies on: ISO dates and their text form,
 * the day before a date, `LocalDate.ofYearDay`, times of day and the clock they are read from.
 * Years are limited to 0..9999, the range in which `LocalDate.toString` writes exactly four digits.
 */
module Calendar {
  import opened Wrappers
  import opened Model
  import opened Lexicographic

  /** A `LocalDate`. */
  datatype Date = Date(year: int, month: int, day: int)

  predicate IsLeap(year: int)
  {
    year % 4 == 0 && (year % 100 != 0 || year % 400 == 0)
  }

  function DaysInMonth(year: int, month: int): (n: int)
    requires 1 <= month <= 12
    ensures 28 <= n <= 31
    ensures month == 2 ==> (n == 29 <==> IsLeap(year))
  {
    if month == 2 then (if IsLeap(year) then 29 else 28)
    else if month == 4 || month == 6 || month == 9 || month == 11 then 30
    else 31
  }

  function DaysInYear(year: int): int
  {
    if IsLeap(year) then 366 else 365
  }

  predicate Valid(d: Date)
  {
    0 <= d.year <= 9999 && 1 <= d.month <= 12 && 1 <= d.day <= DaysInMonth(d.year, d.month)
  }

  /** Chronological order: `a.isBefore(b)`. */
  predicate Before(a: Date, b: Date)
  {
    a.year < b.year || (a.year == b.year && (a.month < b.month || (a.month == b.month && a.day < b.day)))
  }

  // ---------------------------------------------------------------- text form

  function Pow10(n: nat): (p: nat)
    ensures p >= 1
  {
    if n == 0 then 1 else 10 * Pow10(n - 1)
  }

  function DigitChar(d: int): (c: char)
    requires 0 <= d < 10
    ensures '0' <= c <= '9'
  {
    (48 + d) as char
  }

  /** The number a string of decimal digits denotes, most significant digit first. */
  function DigitsValue(s: string): int
    requires forall i :: 0 <= i < |s| ==> '0' <= s[i] <= '9'
  {
    if s == [] then 0 else 10 * DigitsValue(s[..|s| - 1]) + (s[|s| - 1] as int - 48)
  }

  /** `n` in decimal, zero-padded on the left to exactly `width` digits. */
  function Pad(n: int, width: nat): (s: string)
    requires 0 <= n < Pow10(width)
    ensures |s| == width
    ensures forall i :: 0 <= i < |s| ==> '0' <= s[i] <= '9'
    decreases width
  {
    if width == 0 then "" else Pad(n / 10, width - 1) + [DigitChar(n % 10)]
  }

  /** The padded digits read back as the number: `Pad` writes `n` in decimal. */
  lemma {:induction false} PadValue(n: int, width: nat)
    requires 0 <= n < Pow10(width)
    ensures DigitsValue(Pad(n, width)) == n
    decreases width
  {
    if width > 0 {
      var s := Pad(n, width);
      PadValue(n / 10, width - 1);
      assert s[..width - 1] == Pad(n / 10, width - 1);
      assert s[width - 1] == DigitChar(n % 10);
    }
  }

  /** Zero-padded numbers of one width compare as text exactly as they compare as numbers, and are equal only when the numbers are. */
  lemma {:induction false} PadCompare(a: int, b: int, width: nat)
    requires 0 <= a < Pow10(width) && 0 <= b < Pow10(width)
    ensures Less(Pad(a, width), Pad(b, width)) <==> a < b
    ensures Pad(a, width) == Pad(b, width) <==> a == b
    decreases width
  {
    if width == 0 {
      LessIrreflexive("");
    } else {
      var pa, pb := Pad(a / 10, width - 1), Pad(b / 10, width - 1);
      var da, db := [DigitChar(a % 10)], [DigitChar(b % 10)];
      PadCompare(a / 10, b / 10, width - 1);
      LessAppend(pa, da, pb, db);
      assert Less(da, db) <==> a % 10 < b % 10 by {
        assert da[1..] == [] && db[1..] == [];
        LessIrreflexive([]);
      }
      assert a == 10 * (a / 10) + a % 10 && b == 10 * (b / 10) + b % 10;
      if pa + da == pb + db {
        assert (pa + da)[..width - 1] == pa && (pb + db)[..width - 1] == pb;
        assert (pa + da)[width - 1] == da[0] && (pb + db)[width - 1] == db[0];
      }
    }
  }

  /** `LocalDate.toString` for years 0..9999: `yyyy-MM-dd`. */
  function Format(d: Date): (s: string)
    requires Valid(d)
    ensures |s| == 10 && s[4] == '-' && s[7] == '-'
  {
    Pad(d.year, 4) + ("-" + (Pad(d.month, 2) + ("-" + Pad(d.day, 2))))
  }

  /** Two fields of equal width followed by a hyphen and more text compare field first, then rest. */
  lemma HyphenJoin(x: string, y: string, x2: string, y2: string)
    requires |x| == |x2|
    ensures Less(x + ("-" + y), x2 + ("-" + y2)) <==> Less(x, x2) || (x == x2 && Less(y, y2))
    ensures x + ("-" + y) == x2 + ("-" + y2) <==> x == x2 && y == y2
  {
    LessAppend(x, "-" + y, x2, "-" + y2);
    LessAppend("-", y, "-", y2);
    LessIrreflexive("-");
    if x + ("-" + y) == x2 + ("-" + y2) {
      assert (x + ("-" + y))[..|x|] == x && (x2 + ("-" + y2))[..|x|] == x2;
      assert (x + ("-" + y))[|x| + 1..] == y && (x2 + ("-" + y2))[|x| + 1..] == y2;
    }
  }

  /** Formatted dates sort as text in calendar order, and two dates share a text only when they are the same day. */
  lemma FormatOrder(a: Date, b: Date)
    requires Valid(a) && Valid(b)
    ensures Less(Format(a), Format(b)) <==> Before(a, b)
    ensures Format(a) == Format(b) <==> a == b
  {
    PadCompare(a.year, b.year, 4);
    PadCompare(a.month, b.month, 2);
    PadCompare(a.day, b.day, 2);
    HyphenJoin(Pad(a.month, 2), Pad(a.day, 2), Pad(b.month, 2), Pad(b.day, 2));
    HyphenJoin(Pad(a.year, 4), Pad(a.month, 2) + ("-" + Pad(a.day, 2)),
               Pad(b.year, 4), Pad(b.month, 2) + ("-" + Pad(b.day, 2)));
  }

  // ---------------------------------------------------------------- arithmetic on days

  /** `d.minusDays(1)`. */
  function PrevDay(d: Date): (p: Date)
    requires Valid(d) && d.year >= 1
    ensures Valid(p) && Before(p, d)
  {
    if d.day > 1 then Date(d.year, d.month, d.day - 1)
    else if d.month > 1 then Date(d.year, d.month - 1, DaysInMonth(d.year, d.month - 1))
    else Date(d.year - 1, 12, 31)
  }

  /** No valid date lies strictly between the day before `d` and `d`: `PrevDay` is the immediate predecessor. */
  lemma PrevDayAdjacent(d: Date, e: Date)
    requires Valid(d) && d.year >= 1 && Valid(e)
    ensures !(Before(PrevDay(d), e) && Before(e, d))
  {
  }

  /** Days of the year before the first of `month`. */
  function DaysBefore(year: int, month: int): (n: int)
    requires 1 <= month <= 13
    ensures n >= 0
  {
    if month == 1 then 0 else DaysBefore(year, month - 1) + DaysInMonth(year, month - 1)
  }

  lemma DaysBeforeYearEnd(year: int)
    ensures DaysBefore(year, 13) == DaysInYear(year)
  {
    var leap := if IsLeap(year) then 1 else 0;
    assert DaysBefore(year, 2) == 31;
    assert DaysBefore(year, 3) == 59 + leap;
    assert DaysBefore(year, 4) == 90 + leap;
    assert DaysBefore(year, 5) == 120 + leap;
    assert DaysBefore(year, 6) == 151 + leap;
    assert DaysBefore(year, 7) == 181 + leap;
    assert DaysBefore(year, 8) == 212 + leap;
    assert DaysBefore(year, 9) == 243 + leap;
    assert DaysBefore(year, 10) == 273 + leap;
    assert DaysBefore(year, 11) == 304 + leap;
    assert DaysBefore(year, 12) == 334 + leap;
  }

  lemma {:induction false} DaysBeforeMonotone(year: int, m: int, n: int)
    requires 1 <= m <= n <= 13
    ensures DaysBefore(year, m) + (if m < n then DaysInMonth(year, m) else 0) <= DaysBefore(year, n)
    decreases n - m
  {
    if m < n - 1 {
      DaysBeforeMonotone(year, m, n - 1);
    }
  }

  /** `d.getDayOfYear()`. */
  function DayOfYear(d: Date): int
    requires Valid(d)
  {
    DaysBefore(d.year, d.month) + d.day
  }

  /** Within one year, the day of the year identifies the date. */
  lemma DayOfYearInjective(a: Date, b: Date)
    requires Valid(a) && Valid(b) && a.year == b.year && DayOfYear(a) == DayOfYear(b)
    ensures a == b
  {
    if a.month < b.month {
      DaysBeforeMonotone(a.year, a.month, b.month);
    } else if b.month < a.month {
      DaysBeforeMonotone(a.year, b.month, a.month);
    }
  }

  function MonthWalk(year: int, dayOfYear: int, month: int): (d: Date)
    requires 0 <= year <= 9999 && 1 <= month <= 12
    requires DaysBefore(year, month) < dayOfYear <= DaysInYear(year)
    ensures Valid(d) && d.year == year && DayOfYear(d) == dayOfYear
    decreases 12 - month
  {
    if dayOfYear <= DaysBefore(year, month) + DaysInMonth(year, month) then
      Date(year, month, dayOfYear - DaysBefore(year, month))
    else
      DaysBeforeYearEnd(year);
      MonthWalk(year, dayOfYear, month + 1)
  }

  /**
   * `LocalDate.ofYearDay(year, dayOfYear)`: the date that is the given day of the given year,
   * or DateTimeException when the year has no such day.
   */
  function OfYearDay(year: int, dayOfYear: int): (r: Result<Date, Failure>)
    requires 0 <= year <= 9999
    ensures r.Ok? <==> 1 <= dayOfYear <= DaysInYear(year)
    ensures r.Ok? ==> Valid(r.value) && r.value.year == year && DayOfYear(r.value) == dayOfYear
    ensures r.Err? ==> r.error == DateTime
  {
    if 1 <= dayOfYear <= DaysInYear(year) then Ok(MonthWalk(year, dayOfYear, 1)) else Err(DateTime)
  }

  /** A day of the year no larger than 31 always falls in January. */
  lemma OfYearDayInJanuary(year: int, dayOfYear: int)
    requires 0 <= year <= 9999 && 1 <= dayOfYear <= 31
    ensures OfYearDay(year, dayOfYear) == Ok(Date(year, 1, dayOfYear))
  {
    var r := OfYearDay(year, dayOfYear);
    DayOfYearInjective(r.value, Date(year, 1, dayOfYear));
  }

  // ---------------------------------------------------------------- times of day

  /** A `LocalTime`. */
  datatype Time = Time(hour: int, minute: int, second: int, nano: int)

  predicate ValidTime(t: Time)
  {
    0 <= t.hour < 24 && 0 <= t.minute < 60 && 0 <= t.second < 60 && 0 <= t.nano < 1_000_000_000
  }

  function NanoOfDay(t: Time): int
  {
    ((t.hour * 60 + t.minute) * 60 + t.second) * 1_000_000_000 + t.nano
  }

  /** `a.isBefore(b)`. */
  predicate TimeBefore(a: Time, b: Time)
  {
    NanoOfDay(a) < NanoOfDay(b)
  }

  /** `LocalTime.of(16, 0)`: the hour the reference rates are published. */
  const Cutoff := Time(16, 0, 0, 0)

  /** A valid time is before 16:00 exactly when its hour is below 16. */
  lemma BeforeCutoff(t: Time)
    requires ValidTime(t)
    ensures TimeBefore(t, Cutoff) <==> t.hour < 16
  {
    var rest := (t.minute * 60 + t.second) * 1_000_000_000 + t.nano;
    assert 0 <= rest < 3600 * 1_000_000_000 by {
      assert t.minute * 60 + t.second <= 3599;
    }
    assert NanoOfDay(t) == t.hour * 3600 * 1_000_000_000 + rest;
    if t.hour < 16 {
      assert t.hour * 3600 * 1_000_000_000 <= 15 * 3600 * 1_000_000_000;
    } else {
      assert t.hour * 3600 * 1_000_000_000 >= 16 * 3600 * 1_000_000_000;
    }
  }

  /** `LocalTime.toString`: `HH:mm`, then `:ss` when seconds or nanoseconds are set, then a fraction of 3, 6 or 9 digits when nanoseconds are set. */
  function FormatTime(t: Time): (s: string)
    requires ValidTime(t)
    ensures |s| >= 5 && s[2] == ':'
    ensures |s| == 5 <==> t.second == 0 && t.nano == 0
  {
    Pad(t.hour, 2) + ":" + Pad(t.minute, 2)
    + (if t.second > 0 || t.nano > 0 then ":" + Pad(t.second, 2) + Fraction(t.nano) else "")
  }

  function Fraction(nano: int): (s: string)
    requires 0 <= nano < 1_000_000_000
    ensures s == "" <==> nano == 0
  {
    if nano == 0 then ""
    else if nano % 1_000_000 == 0 then "." + Pad(nano / 1_000_000, 3)
    else if nano % 1000 == 0 then "." + Pad(nano / 1000, 6)
    else "." + Pad(nano, 9)
  }

  lemma CutoffText()
    ensures FormatTime(Cutoff) == "16:00"
  {
  }

  /** One reading of the system clock: `LocalDate.now()` and `LocalTime.now()` taken together. */
  datatype Clock = Clock(today: Date, now: Time)

  predicate ValidClock(c: Clock)
  {
    Valid(c.today) && c.today.year >= 1 && ValidTime(c.now)
  }
}
