/**
 * The NSW public-holiday calendar for 2024 to 2027, one table per year
 * (holiday name to `YYYY-MM-DD` date), and the lookup by year.
 */
module PublicHolidays {
  import DateUtils

  const PublicHolidays2024: map<string, string> := map[
    "New Year's Day" := "2024-01-01",
    "Australia Day" := "2024-01-26",
    "Good Friday" := "2024-03-29",
    "Easter Saturday" := "2024-03-30",
    "Easter Sunday" := "2024-03-31",
    "Easter Monday" := "2024-04-01",
    "Anzac Day" := "2024-04-25",
    "King's Birthday" := "2024-06-10",
    "Labour Day" := "2024-10-07",
    "Christmas Day" := "2024-12-25",
    "Boxing Day" := "2024-12-26"
  ]

  const PublicHolidays2025: map<string, string> := map[
    "New Year's Day" := "2025-01-01",
    "Australia Day" := "2025-01-27",
    "Good Friday" := "2025-04-18",
    "Easter Saturday" := "2025-04-19",
    "Easter Sunday" := "2025-04-20",
    "Easter Monday" := "2025-04-21",
    "Anzac Day" := "2025-04-25",
    "King's Birthday" := "2025-06-09",
    "Labour Day" := "2025-10-06",
    "Christmas Day" := "2025-12-25",
    "Boxing Day" := "2025-12-26"
  ]

  const PublicHolidays2026: map<string, string> := map[
    "New Year's Day" := "2026-01-01",
    "Australia Day" := "2026-01-26",
    "Good Friday" := "2026-04-03",
    "Easter Saturday" := "2026-04-04",
    "Easter Sunday" := "2026-04-05",
    "Easter Monday" := "2026-04-06",
    "Anzac Day" := "2026-04-25",
    "King's Birthday" := "2026-06-08",
    "Labour Day" := "2026-10-05",
    "Christmas Day" := "2026-12-25",
    "Boxing Day" := "2026-12-28"
  ]

  const PublicHolidays2027: map<string, string> := map[
    "New Year's Day" := "2027-01-01",
    "Australia Day" := "2027-01-26",
    "Good Friday" := "2027-03-26",
    "Easter Saturday" := "2027-03-27",
    "Easter Sunday" := "2027-03-28",
    "Easter Monday" := "2027-03-29",
    "Anzac Day" := "2027-04-25",
    "Anzac Day Holiday" := "2027-04-26",
    "King's Birthday" := "2027-06-14",
    "Labour Day" := "2027-10-04",
    "Christmas Day" := "2027-12-25",
    "Christmas Day Holiday" := "2027-12-27",
    "Boxing Day" := "2027-12-26",
    "Boxing Day Holiday" := "2027-12-28"
  ]

  /** `HOLIDAYS_BY_YEAR`. */
  const HolidaysByYear: map<int, map<string, string>> := map[
    2024 := PublicHolidays2024,
    2025 := PublicHolidays2025,
    2026 := PublicHolidays2026,
    2027 := PublicHolidays2027
  ]

  /** Every date of `table` is a ten-character `YYYY-MM-DD` date that
      begins with `year`. */
  predicate DatesInYear(table: map<string, string>, year: int)
    requires 0 <= year < 10000
  {
    forall name :: name in table ==> |table[name]| == 10 && table[name][..5] == DateUtils.YearText(year) + "-"
  }

  /** No two holiday names of `table` share a date. */
  predicate DistinctDates(table: map<string, string>) {
    forall a, b :: a in table && b in table && table[a] == table[b] ==> a == b
  }

  /** A table whose dates all lead back to their own names through
      `inverse` has no two names on one date. */
  lemma DistinctByInverse(table: map<string, string>, inverse: map<string, string>)
    requires forall a :: a in table ==> table[a] in inverse && inverse[table[a]] == a
    ensures DistinctDates(table)
  {
  }

  lemma Distinct2024()
    ensures DistinctDates(PublicHolidays2024)
  {
    var inverse := map[
      "2024-01-01" := "New Year's Day",
      "2024-01-26" := "Australia Day",
      "2024-03-29" := "Good Friday",
      "2024-03-30" := "Easter Saturday",
      "2024-03-31" := "Easter Sunday",
      "2024-04-01" := "Easter Monday",
      "2024-04-25" := "Anzac Day",
      "2024-06-10" := "King's Birthday",
      "2024-10-07" := "Labour Day",
      "2024-12-25" := "Christmas Day",
      "2024-12-26" := "Boxing Day"
    ];
    forall a | a in PublicHolidays2024
      ensures PublicHolidays2024[a] in inverse && inverse[PublicHolidays2024[a]] == a
    {
      assert a == "New Year's Day" || a == "Australia Day" || a == "Good Friday" ||
             a == "Easter Saturday" || a == "Easter Sunday" || a == "Easter Monday" ||
             a == "Anzac Day" || a == "King's Birthday" || a == "Labour Day" ||
             a == "Christmas Day" || a == "Boxing Day";
    }
    DistinctByInverse(PublicHolidays2024, inverse);
  }

  lemma Distinct2025()
    ensures DistinctDates(PublicHolidays2025)
  {
    var inverse := map[
      "2025-01-01" := "New Year's Day",
      "2025-01-27" := "Australia Day",
      "2025-04-18" := "Good Friday",
      "2025-04-19" := "Easter Saturday",
      "2025-04-20" := "Easter Sunday",
      "2025-04-21" := "Easter Monday",
      "2025-04-25" := "Anzac Day",
      "2025-06-09" := "King's Birthday",
      "2025-10-06" := "Labour Day",
      "2025-12-25" := "Christmas Day",
      "2025-12-26" := "Boxing Day"
    ];
    forall a | a in PublicHolidays2025
      ensures PublicHolidays2025[a] in inverse && inverse[PublicHolidays2025[a]] == a
    {
      assert a == "New Year's Day" || a == "Australia Day" || a == "Good Friday" ||
             a == "Easter Saturday" || a == "Easter Sunday" || a == "Easter Monday" ||
             a == "Anzac Day" || a == "King's Birthday" || a == "Labour Day" ||
             a == "Christmas Day" || a == "Boxing Day";
    }
    DistinctByInverse(PublicHolidays2025, inverse);
  }

  lemma Distinct2026()
    ensures DistinctDates(PublicHolidays2026)
  {
    var inverse := map[
      "2026-01-01" := "New Year's Day",
      "2026-01-26" := "Australia Day",
      "2026-04-03" := "Good Friday",
      "2026-04-04" := "Easter Saturday",
      "2026-04-05" := "Easter Sunday",
      "2026-04-06" := "Easter Monday",
      "2026-04-25" := "Anzac Day",
      "2026-06-08" := "King's Birthday",
      "2026-10-05" := "Labour Day",
      "2026-12-25" := "Christmas Day",
      "2026-12-28" := "Boxing Day"
    ];
    forall a | a in PublicHolidays2026
      ensures PublicHolidays2026[a] in inverse && inverse[PublicHolidays2026[a]] == a
    {
      assert a == "New Year's Day" || a == "Australia Day" || a == "Good Friday" ||
             a == "Easter Saturday" || a == "Easter Sunday" || a == "Easter Monday" ||
             a == "Anzac Day" || a == "King's Birthday" || a == "Labour Day" ||
             a == "Christmas Day" || a == "Boxing Day";
    }
    DistinctByInverse(PublicHolidays2026, inverse);
  }

  lemma Distinct2027()
    ensures DistinctDates(PublicHolidays2027)
  {
    var inverse := map[
      "2027-01-01" := "New Year's Day",
      "2027-01-26" := "Australia Day",
      "2027-03-26" := "Good Friday",
      "2027-03-27" := "Easter Saturday",
      "2027-03-28" := "Easter Sunday",
      "2027-03-29" := "Easter Monday",
      "2027-04-25" := "Anzac Day",
      "2027-04-26" := "Anzac Day Holiday",
      "2027-06-14" := "King's Birthday",
      "2027-10-04" := "Labour Day",
      "2027-12-25" := "Christmas Day",
      "2027-12-27" := "Christmas Day Holiday",
      "2027-12-26" := "Boxing Day",
      "2027-12-28" := "Boxing Day Holiday"
    ];
    forall a | a in PublicHolidays2027
      ensures PublicHolidays2027[a] in inverse && inverse[PublicHolidays2027[a]] == a
    {
      assert a == "New Year's Day" || a == "Australia Day" || a == "Good Friday" ||
             a == "Easter Saturday" || a == "Easter Sunday" || a == "Easter Monday" ||
             a == "Anzac Day" || a == "Anzac Day Holiday" || a == "King's Birthday" ||
             a == "Labour Day" || a == "Christmas Day" || a == "Christmas Day Holiday" ||
             a == "Boxing Day" || a == "Boxing Day Holiday";
    }
    DistinctByInverse(PublicHolidays2027, inverse);
  }

  /** `get_holidays_for_year`: the year's table for 2024 to 2027, and an
      empty table for every other year.  Whatever it returns holds only
      dates of the requested year, one holiday per date. */
  function GetHolidaysForYear(year: int): (holidays: map<string, string>)
    ensures 2024 <= year <= 2027 <==> holidays != map[]
    ensures 0 <= year < 10000 ==> DatesInYear(holidays, year)
    ensures DistinctDates(holidays)
  {
    TablesInTheirYears();
    if year in HolidaysByYear then HolidaysByYear[year] else map[]
  }

  /** The years with a table are 2024 to 2027, and each year's table is
      non-empty, holds dates of that year only, and gives no two holidays
      the same date. */
  lemma TablesInTheirYears()
    ensures forall year :: year in HolidaysByYear <==> 2024 <= year <= 2027
    ensures forall year :: year in HolidaysByYear ==>
              HolidaysByYear[year] != map[] && DatesInYear(HolidaysByYear[year], year)
    ensures forall year :: year in HolidaysByYear ==> DistinctDates(HolidaysByYear[year])
  {
    YearsWithTables();
    forall year | year in HolidaysByYear
      ensures HolidaysByYear[year] != map[] && DatesInYear(HolidaysByYear[year], year)
      ensures DistinctDates(HolidaysByYear[year])
    {
      if year == 2024 {
        Dates2024();
        Distinct2024();
      } else if year == 2025 {
        Dates2025();
        Distinct2025();
      } else if year == 2026 {
        Dates2026();
        Distinct2026();
      } else {
        Dates2027();
        Distinct2027();
      }
    }
  }

  /** `HOLIDAYS_BY_YEAR` has a table for 2024 to 2027 and no other year. */
  lemma YearsWithTables()
    ensures forall year :: year in HolidaysByYear <==> 2024 <= year <= 2027
  {
  }

  lemma Dates2024()
    ensures PublicHolidays2024 != map[] && DatesInYear(PublicHolidays2024, 2024)
  {
    assert DateUtils.YearText(2024) + "-" == "2024-";
    assert "New Year's Day" in PublicHolidays2024;
  }

  lemma Dates2025()
    ensures PublicHolidays2025 != map[] && DatesInYear(PublicHolidays2025, 2025)
  {
    assert DateUtils.YearText(2025) + "-" == "2025-";
    assert "New Year's Day" in PublicHolidays2025;
  }

  lemma Dates2026()
    ensures PublicHolidays2026 != map[] && DatesInYear(PublicHolidays2026, 2026)
  {
    assert DateUtils.YearText(2026) + "-" == "2026-";
    assert "New Year's Day" in PublicHolidays2026;
  }

  lemma Dates2027()
    ensures PublicHolidays2027 != map[] && DatesInYear(PublicHolidays2027, 2027)
  {
    assert DateUtils.YearText(2027) + "-" == "2027-";
    assert "New Year's Day" in PublicHolidays2027;
  }

  /** The lookup returns exactly the four tables. */
  lemma HolidaysForKnownYears()
    ensures GetHolidaysForYear(2024) == PublicHolidays2024
    ensures GetHolidaysForYear(2025) == PublicHolidays2025
    ensures GetHolidaysForYear(2026) == PublicHolidays2026
    ensures GetHolidaysForYear(2027) == PublicHolidays2027
  {
  }

  /** The off-peak rule's 2024 and 2025 tables are these same tables. */
  lemma OffPeakTablesAgree()
    ensures DateUtils.PublicHolidays2024 == PublicHolidays2024
    ensures DateUtils.PublicHolidays2025 == PublicHolidays2025
  {
  }

  /** 2027 has three substitute days, each the weekday after a holiday
      that falls on a weekend. */
  lemma SubstituteDays2027()
    ensures "Anzac Day Holiday" in PublicHolidays2027
    ensures "Christmas Day Holiday" in PublicHolidays2027
    ensures "Boxing Day Holiday" in PublicHolidays2027
    ensures "Anzac Day Holiday" !in PublicHolidays2026 && "Christmas Day Holiday" !in PublicHolidays2026
  {
  }

  /** The off-peak rule does not know the 2026 and 2027 holidays: their
      dates are ordinary days to it. */
  lemma LaterYearsNotHolidays(date: string)
    requires date in PublicHolidays2026.Values || date in PublicHolidays2027.Values
    ensures !DateUtils.IsPublicHoliday(date)
  {
    if date in PublicHolidays2026.Values {
      Later2026(date);
    } else {
      Later2027(date);
    }
  }

  lemma Later2026(date: string)
    requires date in PublicHolidays2026.Values
    ensures !DateUtils.IsPublicHoliday(date)
  {
    Dates2026();
    ValueInYear(PublicHolidays2026, 2026, date);
    assert DateUtils.YearText(2026) + "-" == "2026-";
    NotEarlierYear(date, "2026-");
  }

  lemma Later2027(date: string)
    requires date in PublicHolidays2027.Values
    ensures !DateUtils.IsPublicHoliday(date)
  {
    Dates2027();
    ValueInYear(PublicHolidays2027, 2027, date);
    assert DateUtils.YearText(2027) + "-" == "2027-";
    NotEarlierYear(date, "2027-");
  }

  /** Every date in a table of one year's dates is in that year. */
  lemma ValueInYear(table: map<string, string>, year: int, date: string)
    requires 0 <= year < 10000 && DatesInYear(table, year)
    requires date in table.Values
    ensures |date| == 10 && date[..5] == DateUtils.YearText(year) + "-"
  {
    var name :| name in table && table[name] == date;
  }

  /** A date of a year after 2025 is not a holiday the off-peak rule
      knows. */
  lemma NotEarlierYear(date: string, prefix: string)
    requires |date| == 10 && (prefix == "2026-" || prefix == "2027-")
    requires date[..5] == prefix
    ensures !DateUtils.IsPublicHoliday(date)
  {
    if DateUtils.IsPublicHoliday(date) {
      DateUtils.HolidayYears(date);
      assert false;
    }
  }
}
