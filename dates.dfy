/** Month keys, the service year (September to August) and month navigation. */
module Dates {
  import opened Wrappers
  import opened JsText

  /** The two ways `getEntryDate` throws. */
  datatype DateError = YearNotFinite | MonthOutOfRange

  datatype YearMonth = YearMonth(year: int, month: int)

  predicate ValidMonth(m: int) { 1 <= m <= 12 }

  /** Months counted from January of year 0, so that consecutive months differ by one. */
  function MonthIndex(ym: YearMonth): int { ym.year * 12 + ym.month - 1 }

  /** The key of the first day of a month: the year as text padded with zeros to four
      characters, the month padded to two, and "-01". */
  function DateKey(y: int, m: int): string {
    PadStart(IntToString(y), 4, '0') + "-" + PadStart(IntToString(m), 2, '0') + "-01"
  }

  /** `getEntryDate` on the parsed year and month inputs (`None` is NaN): the year is
      checked first, then the month. */
  function EntryDate(year: Option<int>, month: Option<int>): (r: Result<string, DateError>)
    ensures r.Ok? <==> year.Some? && month.Some? && ValidMonth(month.value)
    ensures year.None? ==> r == Err(YearNotFinite)
    ensures year.Some? && !(month.Some? && ValidMonth(month.value)) ==> r == Err(MonthOutOfRange)
    ensures r.Ok? && year.value >= 0 ==> DateFields(r.value) == (year, month)
  {
    if year.None? then Err(YearNotFinite)
    else if month.None? || !(month.value >= 1 && month.value <= 12) then Err(MonthOutOfRange)
    else
      var key := DateKey(year.value, month.value);
      assert year.value >= 0 ==> DateFields(key) == (year, month) by {
        if year.value >= 0 { DateKeyRoundTrip(year.value, month.value); }
      }
      Ok(key)
  }

  /** The year and month that `isInServiceYear` reads from a key: `parseInt` of the
      first two `-`-separated fields, `None` for NaN or a missing field. */
  function DateFields(date: string): (Option<int>, Option<int>) {
    var parts := Split(date, '-');
    (ParseInt(parts[0]), if |parts| > 1 then ParseInt(parts[1]) else None)
  }

  /** `isInServiceYear`: a year or month that is NaN or 0 never matches; otherwise
      September to December of `startYear` and January to August of the next year do. */
  predicate IsInServiceYear(date: string, startYear: int) {
    var (yy, mm) := DateFields(date);
    yy.Some? && yy.value != 0 && mm.Some? && mm.value != 0 &&
    ((yy.value == startYear && mm.value >= 9) || (yy.value == startYear + 1 && mm.value <= 8))
  }

  /** The service year shown for the selected month: it starts in the same year from
      September on, in the previous year before. */
  function StartYear(ym: YearMonth): (r: int)
    ensures ValidMonth(ym.month) ==>
              MonthIndex(YearMonth(r, 9)) <= MonthIndex(ym) <= MonthIndex(YearMonth(r + 1, 8))
  {
    if ym.month >= 9 then ym.year else ym.year - 1
  }

  /** `nextMonth`: one month on, December wrapping to January of the next year. */
  function NextMonth(ym: YearMonth): (r: YearMonth)
    ensures ValidMonth(ym.month) ==> ValidMonth(r.month) && MonthIndex(r) == MonthIndex(ym) + 1
  {
    var m := ym.month + 1;
    if m > 12 then YearMonth(ym.year + 1, 1) else YearMonth(ym.year, m)
  }

  /** `prevMonth`: one month back, January wrapping to December of the previous year. */
  function PrevMonth(ym: YearMonth): (r: YearMonth)
    ensures ValidMonth(ym.month) ==> ValidMonth(r.month) && MonthIndex(r) == MonthIndex(ym) - 1
  {
    var m := ym.month - 1;
    if m < 1 then YearMonth(ym.year - 1, 12) else YearMonth(ym.year, m)
  }

  /** Two valid months with the same index are the same month. */
  lemma MonthIndexInjective(a: YearMonth, b: YearMonth)
    requires ValidMonth(a.month) && ValidMonth(b.month)
    requires MonthIndex(a) == MonthIndex(b)
    ensures a == b
  {
  }

  /** Stepping forward then back, or back then forward, returns to the same month. */
  lemma NextPrevRoundTrip(ym: YearMonth)
    requires ValidMonth(ym.month)
    ensures PrevMonth(NextMonth(ym)) == ym
    ensures NextMonth(PrevMonth(ym)) == ym
  {
    MonthIndexInjective(PrevMonth(NextMonth(ym)), ym);
    MonthIndexInjective(NextMonth(PrevMonth(ym)), ym);
  }

  /** The key of a month with a non-negative year is its padded year, its two-digit month
      and "01", each field made of digits only. */
  lemma DateKeyFields(y: nat, m: int)
    requires ValidMonth(m)
    ensures Split(DateKey(y, m), '-') ==
              [PadStart(NatToDigits(y), 4, '0'), PadStart(NatToDigits(m), 2, '0'), "01"]
    ensures |PadStart(NatToDigits(y), 4, '0')| >= 4 && |PadStart(NatToDigits(m), 2, '0')| == 2
    ensures AllDigits(PadStart(NatToDigits(y), 4, '0')) && AllDigits(PadStart(NatToDigits(m), 2, '0'))
  {
    var ys := PadStart(NatToDigits(y), 4, '0');
    var ms := PadStart(NatToDigits(m), 2, '0');
    PaddedDigits(y, 4);
    PaddedDigits(m, 2);
    NoDashInDigits(ys);
    NoDashInDigits(ms);
    NoDashInDigits("01");
    assert DateKey(y, m) == ys + ['-'] + ms + ['-'] + "01";
    SplitThreeFields(ys, ms, "01", '-');
    MonthNumeralLength(m);
  }

  lemma NoDashInDigits(s: string)
    requires AllDigits(s)
    ensures '-' !in s
  {
    forall i | 0 <= i < |s| ensures s[i] != '-' {
      assert IsDigit(s[i]);
    }
  }

  lemma MonthNumeralLength(m: int)
    requires ValidMonth(m)
    ensures |NatToDigits(m)| <= 2
  {
    if m >= 10 {
      assert NatToDigits(m) == NatToDigits(m / 10) + [DigitChar(m % 10)];
    }
  }

  /** Reading a key back gives the year and month it was made from. */
  lemma DateKeyRoundTrip(y: nat, m: int)
    requires ValidMonth(m)
    ensures DateFields(DateKey(y, m)) == (Some(y), Some(m))
  {
    DateKeyFields(y, m);
    ParseIntPadded(y, 4);
    ParseIntPadded(m, 2);
  }

  /** For a key whose year is not 0 and whose month is a real month, being in the service
      year starting in `startYear` means lying in the twelve months from September of
      `startYear` to August of the next year. */
  lemma ServiceYearIsTwelveMonths(date: string, startYear: int, ym: YearMonth)
    requires DateFields(date) == (Some(ym.year), Some(ym.month))
    requires ym.year != 0 && ValidMonth(ym.month)
    ensures IsInServiceYear(date, startYear) <==>
              MonthIndex(YearMonth(startYear, 9)) <= MonthIndex(ym) <= MonthIndex(YearMonth(startYear + 1, 8))
  {
  }

  /** A key lies in at most one service year. */
  lemma ServiceYearUnique(date: string, y1: int, y2: int)
    requires IsInServiceYear(date, y1) && IsInServiceYear(date, y2)
    ensures y1 == y2
  {
  }

  /** The month selected when the overview opens lies in the service year the overview
      reports on. */
  lemma StartYearContainsMonth(ym: YearMonth)
    requires ym.year >= 1 && ValidMonth(ym.month)
    ensures EntryDate(Some(ym.year), Some(ym.month)) == Ok(DateKey(ym.year, ym.month))
    ensures IsInServiceYear(DateKey(ym.year, ym.month), StartYear(ym))
  {
    DateKeyRoundTrip(ym.year, ym.month);
  }

  /** A key written for year 0 ("0000-MM-01") is in no service year, because its year
      parses to 0. */
  lemma YearZeroInNoServiceYear(m: int, startYear: int)
    requires ValidMonth(m)
    ensures !IsInServiceYear(DateKey(0, m), startYear)
  {
    DateKeyRoundTrip(0, m);
  }

  /** A key written for a negative year is in no service year: `String` puts a minus
      sign in front of the digits and `padStart` puts zeros in front of that, so the
      first field is empty ("-2024-09-01") or all zeros ("00-5-09-01") and parses to
      NaN or 0. */
  lemma NegativeYearInNoServiceYear(y: int, m: int, startYear: int)
    requires y < 0
    ensures !IsInServiceYear(DateKey(y, m), startYear)
  {
    var tail := "-" + PadStart(IntToString(m), 2, '0') + "-01";
    assert DateKey(y, m) == PadStart(IntToString(-(-y)), 4, '0') + tail;
    PaddedNegativeFirstField(-y, 4, tail);
  }

  /** An empty date is in no service year: its only field parses to NaN. */
  lemma EmptyDateInNoServiceYear(startYear: int)
    ensures !IsInServiceYear("", startYear)
  {
    assert Split("", '-') == [""];
    assert TrimStart("") == "" && LeadingDigits("") == "";
  }

  /** For a key written by `getEntryDate`, the service-year test compares the year and
      month the key was written from. */
  lemma KeyInServiceYear(y: nat, m: int, startYear: int)
    requires ValidMonth(m)
    ensures IsInServiceYear(DateKey(y, m), startYear) <==>
              y != 0 && ((y == startYear && m >= 9) || (y == startYear + 1 && m <= 8))
  {
    DateKeyRoundTrip(y, m);
  }

  /** Keys are zero-padded: September 2024 is "2024-09-01". */
  lemma DateKeyExamples()
    ensures DateKey(2024, 9) == "2024-09-01"
  {
    var year := NatToDigits(2024);
    assert year == "2024" by {
      assert NatToDigits(2024) == NatToDigits(202) + ['4'];
      assert NatToDigits(202) == NatToDigits(20) + ['2'];
      assert NatToDigits(20) == NatToDigits(2) + ['0'];
    }
    assert PadStart(NatToDigits(9), 2, '0') == "09";
    assert DateKey(2024, 9) == year + "-" + "09" + "-01";
  }

  /** A year below 1000 is padded to four digits: December of year 5 is "0005-12-01". */
  lemma DateKeySmallYear()
    ensures DateKey(5, 12) == "0005-12-01"
  {
    assert NatToDigits(12) == NatToDigits(1) + ['2'];
    assert PadStart("5", 4, '0') == "0005";
  }

  /** The service year 2024/2025 runs from September 2024 to August 2025. */
  lemma ServiceYearExamples()
    ensures IsInServiceYear(DateKey(2024, 9), 2024)
    ensures IsInServiceYear(DateKey(2025, 8), 2024)
    ensures !IsInServiceYear(DateKey(2025, 9), 2024)
    ensures !IsInServiceYear(DateKey(2024, 1), 2024)
  {
    KeyInServiceYear(2024, 9, 2024);
    KeyInServiceYear(2025, 8, 2024);
    KeyInServiceYear(2025, 9, 2024);
    KeyInServiceYear(2024, 1, 2024);
  }
}
