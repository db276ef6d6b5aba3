/** exFAT timestamps (section 7.4.8) as Unix milliseconds. */
module Timestamps {
  import opened Bytes

  /** Days from 1970-01-01 to a civil date by the closed form for the proleptic Gregorian calendar. */
  function DaysFromCivil(year: int, month: int, day: int): int
  {
    var y := if month <= 2 then year - 1 else year;
    var era := y / 400;
    var yoe := y - era * 400;
    var doy := (153 * (if month > 2 then month - 3 else month + 9) + 2) / 5 + day - 1;
    var doe := yoe * 365 + yoe / 4 - yoe / 100 + doy;
    era * 146097 + doe - 719468
  }

  /** The signed quarter hours of a UTC offset byte whose validity bit is set: seven bits, two's
      complement. */
  function QuarterHours(utcOffset: byte): int
  {
    var q := utcOffset % 128;
    if q >= 64 then q - 128 else q
  }

  function TimestampMs(ts: nat, centis: byte, utcOffset: byte): Option<int>
  {
    var year := 1980 + ts / 0x200_0000;
    var month := ts / 0x20_0000 % 16;
    var day := ts / 0x1_0000 % 32;
    var hour := ts / 0x800 % 32;
    var min := ts / 0x20 % 64;
    var sec := ts % 32 * 2;
    if !(1 <= month <= 12 && 1 <= day <= 31) then None
    else
      var days := DaysFromCivil(year, month, day);
      var ms := (days * 86400 + hour * 3600 + min * 60 + sec) * 1000 + centis * 10;
      Some(if utcOffset >= 128 then ms - QuarterHours(utcOffset) * 15 * 60 * 1000 else ms)
  }

  // ---- The calendar, counted out -----------------------------------------------------------------

  predicate Leap(year: int)
  {
    year % 4 == 0 && (year % 100 != 0 || year % 400 == 0)
  }

  function DaysInMonth(year: int, month: int): (n: nat)
    ensures n <= 31
  {
    if month == 2 then if Leap(year) then 29 else 28
    else if month == 4 || month == 6 || month == 9 || month == 11 then 30
    else 31
  }

  /** Days from 1970-01-01 to the first day of a year, one year after the other. */
  function DaysToYear(year: int): nat
    requires 1970 <= year
  {
    if year == 1970 then 0 else DaysToYear(year - 1) + if Leap(year - 1) then 366 else 365
  }

  /** Days from the first day of a year to the first day of a month, one month after the other. */
  function DaysToMonth(year: int, month: int): nat
    requires 1 <= month <= 13
  {
    if month == 1 then 0 else DaysToMonth(year, month - 1) + DaysInMonth(year, month - 1)
  }

  /** The days counted out from the epoch. */
  function CalendarDays(year: int, month: int, day: int): int
    requires 1970 <= year && 1 <= month <= 12
  {
    DaysToYear(year) + DaysToMonth(year, month) + day - 1
  }

  /** The closed form without eras: leap days before 1 March of year `y`. */
  lemma WithoutEras(y: nat)
    ensures var yoe := y - y / 400 * 400;
            y / 400 * 146097 + yoe * 365 + yoe / 4 - yoe / 100 == 365 * y + y / 4 - y / 100 + y / 400
  {
    var e, r := y / 400, y % 400;
    assert y == 400 * e + r;
    assert y / 4 == 100 * e + r / 4;
    assert y / 100 == 4 * e + r / 100;
  }

  lemma LeapCount(y: nat)
    ensures (y + 1) / 4 - (y + 1) / 100 + (y + 1) / 400 == y / 4 - y / 100 + y / 400 + if Leap(y + 1) then 1 else 0
  {
    Carry(y, 4);
    Carry(y, 100);
    Carry(y, 400);
    Multiples(y + 1);
  }

  lemma Multiples(n: nat)
    ensures n % 400 == 0 ==> n % 100 == 0
    ensures n % 100 == 0 ==> n % 4 == 0
  {
    if n % 400 == 0 {
      DivModUnique(4 * (n / 400), 100, 0);
    }
    if n % 100 == 0 {
      DivModUnique(25 * (n / 100), 4, 0);
    }
  }

  lemma Carry(y: nat, n: nat)
    requires n > 0
    ensures (y + 1) / n == y / n + if (y + 1) % n == 0 then 1 else 0
  {
    var q := y / n;
    assert y == q * n + y % n;
    if y % n == n - 1 {
      assert y + 1 == (q + 1) * n;
      DivModUnique(q + 1, n, 0);
    } else {
      DivModUnique(q, n, y % n + 1);
    }
  }

  /** Counting out whole years gives the leap-day formula. */
  lemma {:induction false} YearsCounted(year: int)
    requires 1970 <= year
    ensures DaysToYear(year) == 365 * (year - 1) + (year - 1) / 4 - (year - 1) / 100 + (year - 1) / 400 - 719162
  {
    if year > 1970 {
      YearsCounted(year - 1);
      LeapCount(year - 2);
    }
  }

  /** Months from March on, by the five-month rule of the closed form. */
  lemma MonthsCounted(year: int, month: int)
    requires 1 <= month <= 12
    ensures month > 2 ==>
      DaysToMonth(year, month) == (153 * (month - 3) + 2) / 5 + if Leap(year) then 60 else 59
    ensures month <= 2 ==> DaysToMonth(year, month) == (153 * (month + 9) + 2) / 5 - 306
  {
    if month > 1 {
      MonthsCounted(year, month - 1);
    }
  }

  /** The closed form is the calendar count, for every year from the epoch on. */
  lemma ClosedFormCounts(year: int, month: int, day: int)
    requires 1970 <= year && 1 <= month <= 12
    ensures DaysFromCivil(year, month, day) == CalendarDays(year, month, day)
  {
    MonthsCounted(year, month);
    YearsCounted(year);
    var y := if month <= 2 then year - 1 else year;
    WithoutEras(y);
    LeapCount(year - 1);
  }

  // ---- Order ------------------------------------------------------------------------------------------

  predicate ValidDate(year: int, month: int, day: int)
  {
    1970 <= year && 1 <= month <= 12 && 1 <= day <= DaysInMonth(year, month)
  }

  predicate DateBefore(y: int, m: int, d: int, y': int, m': int, d': int)
  {
    y < y' || (y == y' && (m < m' || (m == m' && d < d')))
  }

  lemma {:induction false} LaterYear(year: int, year': int)
    requires 1970 <= year < year'
    ensures DaysToYear(year + 1) <= DaysToYear(year')
    decreases year'
  {
    if year + 1 < year' {
      LaterYear(year, year' - 1);
    }
  }

  lemma {:induction false} LaterMonth(year: int, month: int, month': int)
    requires 1 <= month < month' <= 13
    ensures DaysToMonth(year, month) + DaysInMonth(year, month) <= DaysToMonth(year, month')
    decreases month'
  {
    if month + 1 < month' {
      LaterMonth(year, month, month' - 1);
    }
  }

  lemma YearLength(year: int)
    ensures DaysToMonth(year, 13) == if Leap(year) then 366 else 365
  {
    MonthsCounted(year, 12);
  }

  /** A later date has more days. */
  lemma DaysIncrease(y: int, m: int, d: int, y': int, m': int, d': int)
    requires ValidDate(y, m, d) && ValidDate(y', m', d') && DateBefore(y, m, d, y', m', d')
    ensures DaysFromCivil(y, m, d) < DaysFromCivil(y', m', d')
  {
    hide DaysFromCivil;
    ClosedFormCounts(y, m, d);
    ClosedFormCounts(y', m', d');
    LaterMonth(y, m, 13);
    YearLength(y);
    if y < y' {
      LaterYear(y, y');
    } else if m < m' {
      LaterMonth(y, m, m');
    }
  }

  /** The date half of a packed timestamp. */
  function Date(ts: nat): nat { ts / 0x1_0000 }

  /** The milliseconds of the time half and the hundredths byte. */
  function TimeOfDay(ts: nat, centis: nat): nat
  {
    (ts / 0x800 % 32 * 3600 + ts / 0x20 % 64 * 60 + ts % 32 * 2) * 1000 + centis * 10
  }

  /** A real calendar date from 1980 on, a time of day, and at most 1.99 seconds of hundredths. */
  predicate ValidStamp(ts: nat, centis: byte)
  {
    && ValidDate(1980 + Date(ts) / 512, Date(ts) / 32 % 16, Date(ts) % 32)
    && ts / 0x800 % 32 < 24 && ts / 0x20 % 64 < 60 && ts % 32 < 30
    && centis < 200
  }

  lemma StampParts(ts: nat)
    ensures ts / 0x200_0000 == Date(ts) / 512 && ts / 0x20_0000 % 16 == Date(ts) / 32 % 16
    ensures ts / 0x1_0000 % 32 == Date(ts) % 32
  {
  }

  /** Every timestamp whose month and day are in range converts to the counted days, the time of day, and the signed
      offset, and no other one converts. */
  lemma ConvertsExactly(ts: nat, centis: byte, utcOffset: byte)
    ensures TimestampMs(ts, centis, utcOffset) ==
      if !(1 <= Date(ts) / 32 % 16 <= 12 && 1 <= Date(ts) % 32) then None
      else Some(CalendarDays(1980 + Date(ts) / 512, Date(ts) / 32 % 16, Date(ts) % 32) * 86_400_000 + TimeOfDay(ts, centis)
                - if utcOffset >= 128 then QuarterHours(utcOffset) * 900_000 else 0)
    ensures ValidStamp(ts, centis) ==>
      1 <= Date(ts) / 32 % 16 <= 12 && 1 <= Date(ts) % 32 && 0 <= TimeOfDay(ts, centis) < 86_400_000
    ensures -64 <= QuarterHours(utcOffset) < 64 && (QuarterHours(utcOffset) - utcOffset) % 128 == 0
  {
    hide DaysFromCivil, CalendarDays;
    StampParts(ts);
    if 1 <= Date(ts) / 32 % 16 <= 12 {
      ClosedFormCounts(1980 + Date(ts) / 512, Date(ts) / 32 % 16, Date(ts) % 32);
    }
  }

  /** A number split by two moduli, `n * m` and then `n`. */
  lemma SplitTwice(a: nat, n: nat, m: nat)
    requires n > 0 && m > 0 && n * m > 0
    ensures a / n / m * m + a / n % m == a / n && a / n * n + a % n == a
    ensures 0 <= a / n % m < m && 0 <= a % n < n
  {
  }

  lemma DateOrder(a: nat, b: nat)
    requires a < b
    ensures DateBefore(1980 + a / 512, a / 32 % 16, a % 32, 1980 + b / 512, b / 32 % 16, b % 32)
  {
    SplitTwice(a, 32, 16);
    SplitTwice(b, 32, 16);
    assert a / 512 == a / 32 / 16 && b / 512 == b / 32 / 16;
    Lexicographic(a / 512, a / 32 % 16, a % 32, b / 512, b / 32 % 16, b % 32, 16);
  }

  /** Digits compare like the number they make. */
  lemma Lexicographic(y: nat, m: nat, d: nat, y': nat, m': nat, d': nat, n: nat)
    requires m < n <= 64 && m' < n && d < 32 && d' < 32
    requires (y * n + m) * 32 + d < (y' * n + m') * 32 + d'
    ensures DateBefore(y, m, d, y', m', d')
  {
    if y > y' {
      MulMono(y', y, n);
    }
  }

  lemma TimeOrder(ts: nat, centis: byte, ts': nat, centis': byte)
    requires ValidStamp(ts, centis) && ValidStamp(ts', centis')
    requires Date(ts) == Date(ts') && (ts < ts' || (ts == ts' && centis < centis'))
    ensures TimeOfDay(ts, centis) < TimeOfDay(ts', centis')
  {
    if ts < ts' {
      var q, q' := ts % 0x1_0000, ts' % 0x1_0000;
      ClockParts(ts);
      ClockParts(ts');
      SplitTwice(q, 32, 64);
      SplitTwice(q', 32, 64);
      Lexicographic(q / 32 / 64, q / 32 % 64, q % 32, q' / 32 / 64, q' / 32 % 64, q' % 32, 64);
      LaterClock(q / 32 / 64, q / 32 % 64, q % 32, centis, q' / 32 / 64, q' / 32 % 64, q' % 32, centis');
    }
  }

  lemma ClockParts(ts: nat)
    ensures var q := ts % 0x1_0000;
            ts / 0x800 % 32 == q / 32 / 64 && ts / 0x20 % 64 == q / 32 % 64 && ts % 32 == q % 32
    ensures ts == Date(ts) * 0x1_0000 + ts % 0x1_0000
  {
    ClockField(ts, 0x800, 32);
    ClockField(ts, 0x20, 2048);
    ClockField(ts, 1, 0x1_0000);
    var q := ts % 0x1_0000;
    assert q / 0x800 == q / 32 / 64;
    assert ts / 0x20 % 64 == ts / 0x20 % 2048 % 64;
    assert ts % 32 == q % 32;
  }

  /** Shifting a 16-bit half down and then cutting is cutting and then shifting. */
  lemma ClockField(ts: nat, unit: nat, n: nat)
    requires (unit == 0x800 && n == 32) || (unit == 0x20 && n == 2048) || (unit == 1 && n == 0x1_0000)
    ensures ts / unit % n == ts % 0x1_0000 / unit
  {
    var d, q := ts / 0x1_0000, ts % 0x1_0000;
    if unit == 0x800 {
      assert ts / 0x800 == d * 32 + q / 0x800;
    } else if unit == 0x20 {
      assert ts / 0x20 == d * 2048 + q / 0x20;
    }
  }

  lemma LaterClock(h: nat, m: nat, s: nat, c: nat, h': nat, m': nat, s': nat, c': nat)
    requires m < 60 && m' < 60 && s < 30 && s' < 30 && c < 200
    requires DateBefore(h, m, s, h', m', s')
    ensures (h * 3600 + m * 60 + s * 2) * 1000 + c * 10 < (h' * 3600 + m' * 60 + s' * 2) * 1000 + c' * 10
  {
  }

  /** Packed timestamps compare as numbers in the order of the instants they stand for. */
  lemma StrictlyMonotone(ts: nat, centis: byte, ts': nat, centis': byte, utcOffset: byte)
    requires ValidStamp(ts, centis) && ValidStamp(ts', centis')
    requires ts < ts' || (ts == ts' && centis < centis')
    ensures TimestampMs(ts, centis, utcOffset).Some? && TimestampMs(ts', centis', utcOffset).Some?
    ensures TimestampMs(ts, centis, utcOffset).value < TimestampMs(ts', centis', utcOffset).value
  {
    hide TimestampMs, TimeOfDay, CalendarDays, DaysFromCivil;
    ConvertsExactly(ts, centis, utcOffset);
    ConvertsExactly(ts', centis', utcOffset);
    var a, b := Date(ts), Date(ts');
    if a < b {
      DateOrder(a, b);
      DaysIncrease(1980 + a / 512, a / 32 % 16, a % 32, 1980 + b / 512, b / 32 % 16, b % 32);
      ClosedFormCounts(1980 + a / 512, a / 32 % 16, a % 32);
      ClosedFormCounts(1980 + b / 512, b / 32 % 16, b % 32);
    } else {
      TimeOrder(ts, centis, ts', centis');
    }
  }
}
