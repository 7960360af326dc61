/**
 * The calendar operations on the dates the library's own examples use: each
 * method runs the operation on one date and states the fields it yields.
 */
module CalendarExamples {
  import opened Wrappers
  import opened JsSemantics
  import opened Calendar

  /** February has 29 days in 2020 and 28 in 2021, the years have 366 and 365
      days, and months -1 and 12 are refused. */
  lemma MonthTables()
    ensures DaysInMonth(2020, 1) == Success(29) && DaysInMonth(2021, 1) == Success(28)
    ensures DaysBeforeMonth(2020, 12) == 366 && DaysBeforeMonth(2021, 12) == 365
    ensures DaysInMonth(2000, -1) == Failure(MonthOutOfBounds) && DaysInMonth(2000, 12) == Failure(MonthOutOfBounds)
  {
    YearLength(2020);
    YearLength(2021);
  }

  /** 1 January 2021 plus 50 days is 20 February 2021, at the same time of day. */
  method AddDaysForward() returns (r: DateTime)
    ensures r == DateTime(2021, 1, 20, 0, 0, 0, 0)
  {
    r := AddDays(DateTime(2021, 0, 1, 0, 0, 0, 0), 50);
    assert Ordinal(2021, 1, 20) == Ordinal(2021, 0, 1) + 50;
    OrdinalInjective(r.year, r.month, r.day, 2021, 1, 20);
  }

  /** 1 January 2021 minus 50 days is 12 November 2020, across a leap year's end. */
  method AddDaysBackward() returns (r: DateTime)
    ensures r == DateTime(2020, 10, 12, 0, 0, 0, 0)
  {
    r := AddDays(DateTime(2021, 0, 1, 0, 0, 0, 0), -50);
    NextYear(2020);
    YearLength(2020);
    assert Ordinal(2020, 10, 12) == Ordinal(2021, 0, 1) - 50;
    OrdinalInjective(r.year, r.month, r.day, 2020, 10, 12);
  }

  /** 1 January 1970 plus 3 months is 1 April 1970. */
  method AddMonthsWithinYear() returns (r: DateTime)
    ensures r == DateTime(1970, 3, 1, 0, 0, 0, 0)
  {
    r := AddMonths(DateTime(1970, 0, 1, 0, 0, 0, 0), 3);
  }

  /** 25 December 1983 minus 6 months is 25 June 1983. */
  method SubtractMonthsWithinYear() returns (r: DateTime)
    ensures r == DateTime(1983, 5, 25, 0, 0, 0, 0)
  {
    r := AddMonths(DateTime(1983, 11, 25, 0, 0, 0, 0), -6);
  }

  /** 28 May 1983 plus 456 months (38 whole years) is 28 May 2021. */
  method AddMonthsWholeYears() returns (r: DateTime)
    ensures r == DateTime(2021, 4, 28, 0, 0, 0, 0)
  {
    r := AddMonths(DateTime(1983, 4, 28, 0, 0, 0, 0), 456);
  }

  /** 31 October 2021 minus 36 months is 31 October 2018. */
  method SubtractMonthsWholeYears() returns (r: DateTime)
    ensures r == DateTime(2018, 9, 31, 0, 0, 0, 0)
  {
    r := AddMonths(DateTime(2021, 9, 31, 0, 0, 0, 0), -36);
  }

  /** 25 November 1991 plus 3 months: the library gives 25 March 1992, where
      counting months gives 25 February 1992. */
  method AddMonthsIntoNextYear() returns (asWritten: DateTime, intended: DateTime)
    ensures asWritten == DateTime(1992, 2, 25, 0, 0, 0, 0)
    ensures intended == DateTime(1992, 1, 25, 0, 0, 0, 0)
  {
    asWritten := AddMonths(DateTime(1991, 10, 25, 0, 0, 0, 0), 3);
    intended := AddMonthsIntended(DateTime(1991, 10, 25, 0, 0, 0, 0), 3);
  }

  /** 14 February 2016 minus 6 months: the library gives 14 July 2015, where
      counting months gives 14 August 2015. */
  method SubtractMonthsIntoPreviousYear() returns (asWritten: DateTime, intended: DateTime)
    ensures asWritten == DateTime(2015, 6, 14, 0, 0, 0, 0)
    ensures intended == DateTime(2015, 7, 14, 0, 0, 0, 0)
  {
    asWritten := AddMonths(DateTime(2016, 1, 14, 0, 0, 0, 0), -6);
    intended := AddMonthsIntended(DateTime(2016, 1, 14, 0, 0, 0, 0), -6);
  }

  /** 15 December 2020 plus one month: the library gives 15 February 2021,
      where counting months gives 15 January 2021; one month back from the
      library's answer is 15 January 2021, not the starting date. */
  method AddMonthFromDecember() returns (asWritten: DateTime, intended: DateTime, back: DateTime)
    ensures asWritten == DateTime(2021, 1, 15, 0, 0, 0, 0)
    ensures intended == DateTime(2021, 0, 15, 0, 0, 0, 0)
    ensures back == DateTime(2021, 0, 15, 0, 0, 0, 0)
  {
    asWritten := AddMonths(DateTime(2020, 11, 15, 0, 0, 0, 0), 1);
    intended := AddMonthsIntended(DateTime(2020, 11, 15, 0, 0, 0, 0), 1);
    back := AddMonths(asWritten, -1);
  }

  /** 29 February 2000 plus one year is 28 February 2001. */
  method AddYearFromLeapDay() returns (r: DateTime)
    ensures r == DateTime(2001, 1, 28, 0, 0, 0, 0)
  {
    r := AddYears(DateTime(2000, 1, 29, 0, 0, 0, 0), 1);
  }
}
