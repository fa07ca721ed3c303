/** Calendar dates as Python's `datetime.date` holds them: a (year, month,
    day) triple in the proleptic Gregorian calendar, years 1 to 9999. */
module Calendar {
  import opened Text

  datatype YearMonthDay = YearMonthDay(year: int, month: int, day: int)

  predicate IsLeapYear(y: int)
  {
    y % 4 == 0 && (y % 100 != 0 || y % 400 == 0)
  }

  function DaysInMonth(y: int, m: int): int
    requires 1 <= m <= 12
  {
    if m == 2 then (if IsLeapYear(y) then 29 else 28)
    else if m == 4 || m == 6 || m == 9 || m == 11 then 30
    else 31
  }

  /** `date.min` .. `date.max`, and a day that exists in its month. */
  predicate IsValidDate(d: YearMonthDay)
  {
    1 <= d.year <= 9999 && 1 <= d.month <= 12 && 1 <= d.day <= DaysInMonth(d.year, d.month)
  }

  type Date = d: YearMonthDay | IsValidDate(d) witness YearMonthDay(1970, 1, 1)

  /** Lexicographic `<` on (month, day) pairs, as Python compares tuples. */
  predicate MonthDayBefore(m1: int, d1: int, m2: int, d2: int)
  {
    m1 < m2 || (m1 == m2 && d1 < d2)
  }

  /** Lexicographic `<` on (year, month, day): the order of `date` objects. */
  predicate Before(a: YearMonthDay, b: YearMonthDay)
  {
    a.year < b.year || (a.year == b.year && MonthDayBefore(a.month, a.day, b.month, b.day))
  }

  predicate NotAfter(a: YearMonthDay, b: YearMonthDay)
  {
    !Before(b, a)
  }

  /** The same month and day, `n` years later (the n-th anniversary). */
  function Anniversary(d: YearMonthDay, n: int): YearMonthDay
  {
    YearMonthDay(d.year + n, d.month, d.day)
  }

  /** `date.strftime('%Y-%m-%d')` and `str(date)`: the `full-date` form of
      section 5.6 of RFC 3339. */
  function IsoFormat(d: Date): string
  {
    ZeroPad(d.year, 4) + "-" + ZeroPad(d.month, 2) + "-" + ZeroPad(d.day, 2)
  }

  /** The formatted date is a four-digit year, a two-digit month and a
      two-digit day, each denoting the date's own field. */
  lemma IsoFormatFields(d: Date)
    ensures var r := IsoFormat(d);
      && |r| == 10 && r[4] == '-' && r[7] == '-'
      && AllDigits(r[..4]) && AllDigits(r[5..7]) && AllDigits(r[8..])
      && DigitsValue(r[..4]) == d.year
      && DigitsValue(r[5..7]) == d.month
      && DigitsValue(r[8..]) == d.day
  {
    DigitsFit(d.year, 4);
    DigitsFit(d.month, 2);
    DigitsFit(d.day, 2);
    var y, m, dd := ZeroPad(d.year, 4), ZeroPad(d.month, 2), ZeroPad(d.day, 2);
    var r := IsoFormat(d);
    assert r == y + "-" + m + "-" + dd;
    assert r[..4] == y && r[5..7] == m && r[8..] == dd;
  }

  /** Distinct dates are written differently: the date can be read back
      from its formatted text. */
  lemma IsoFormatInjective(a: Date, b: Date)
    requires IsoFormat(a) == IsoFormat(b)
    ensures a == b
  {
    var s := IsoFormat(a);
    IsoFormatFields(a);
    IsoFormatFields(b);
    assert DigitsValue(s[..4]) == a.year == b.year;
    assert DigitsValue(s[5..7]) == a.month == b.month;
    assert DigitsValue(s[8..]) == a.day == b.day;
  }
}
