/**
 * The Sydney off-peak rule for rail fares: public holidays, weekends and
 * Fridays are off-peak all day; Monday to Thursday are peak from 06:30 to
 * 10:00 and from 15:00 to 19:00.  Times arrive already in Sydney local
 * time, split into the fields the rule reads.
 */
module DateUtils {
  import opened Text

  /** Python's `datetime.weekday()`: Monday is 0, Sunday is 6. */
  type Weekday = d: int | 0 <= d <= 6
  type Hour = h: int | 0 <= h < 24
  type Minute = m: int | 0 <= m < 60

  /** A local Sydney `datetime`, reduced to what the rule reads: the date
      as `strftime("%Y-%m-%d")` writes it, the weekday and the clock. */
  datatype SydneyTime = SydneyTime(date: string, weekday: Weekday, hour: Hour, minute: Minute)

  /** The digit of a value below ten. */
  function DigitChar(n: int): (c: char)
    requires 0 <= n < 10
    ensures IsDigit(c)
  {
    ('0' as int + n) as char
  }

  /** A year as `strftime("%Y")` writes it, four digits. */
  function YearText(year: int): (t: string)
    requires 0 <= year < 10000
    ensures |t| == 4 && forall k :: 0 <= k < 4 ==> IsDigit(t[k])
  {
    [DigitChar(year / 1000), DigitChar(year / 100 % 10), DigitChar(year / 10 % 10), DigitChar(year % 10)]
  }

  /** The 2024 NSW public holidays, by name. */
  const PublicHolidays2024: map<string, string> := map[
    "New Year's Day" := "2024-01-01",
    "Australia Day" := "2024-01-26",
    "Good Friday" := "2024-03-29",
    "Easter Saturday" := "2024-03-30",
    "Easter Sunday" := "2024-03-31",
    "Easter Monday" := "2024-04-01",
    "Anzac Day" := "2024-04-25",
    "King's Birthday" := "2024-06-10",
    "Labour Day" := "2024-10-07",
    "Christmas Day" := "2024-12-25",
    "Boxing Day" := "2024-12-26"
  ]

  /** The 2025 NSW public holidays, by name. */
  const PublicHolidays2025: map<string, string> := map[
    "New Year's Day" := "2025-01-01",
    "Australia Day" := "2025-01-27",
    "Good Friday" := "2025-04-18",
    "Easter Saturday" := "2025-04-19",
    "Easter Sunday" := "2025-04-20",
    "Easter Monday" := "2025-04-21",
    "Anzac Day" := "2025-04-25",
    "King's Birthday" := "2025-06-09",
    "Labour Day" := "2025-10-06",
    "Christmas Day" := "2025-12-25",
    "Boxing Day" := "2025-12-26"
  ]

  /** `is_public_holiday`: the date is one of the 2024 or 2025 holiday
      dates (no other year is consulted). */
  predicate IsPublicHoliday(date: string): (b: bool)
    ensures b ==> |date| == 10
  {
    date in PublicHolidays2024.Values || date in PublicHolidays2025.Values
  }

  /** Every holiday date `is_public_holiday` knows lies in 2024 or 2025. */
  lemma HolidayYears(date: string)
    requires IsPublicHoliday(date)
    ensures |date| == 10 && (date[..5] == "2024-" || date[..5] == "2025-")
  {
    if date in PublicHolidays2024.Values {
      var name :| name in PublicHolidays2024 && PublicHolidays2024[name] == date;
    } else {
      var name :| name in PublicHolidays2025 && PublicHolidays2025[name] == date;
    }
  }

  /** Minutes since midnight. */
  function MinuteOfDay(t: SydneyTime): (m: nat)
    ensures m < 24 * 60
  {
    60 * t.hour + t.minute
  }

  /** The two weekday peak windows, 06:30-10:00 and 15:00-19:00, each
      closed at its start and open at its end. */
  predicate InPeakWindow(m: nat) {
    (6 * 60 + 30 <= m < 10 * 60) || (15 * 60 <= m < 19 * 60)
  }

  /** `is_off_peak_time`: a holiday first, then the weekend, then Friday,
      then the morning and evening peaks of Monday to Thursday. */
  function IsOffPeakTime(t: SydneyTime): (offPeak: bool)
    ensures IsPublicHoliday(t.date) ==> offPeak
    ensures t.weekday >= 4 ==> offPeak
    ensures offPeak <==> IsPublicHoliday(t.date) || t.weekday >= 4 || !InPeakWindow(MinuteOfDay(t))
  {
    if IsPublicHoliday(t.date) then true
    else if t.weekday >= 5 then true
    else if t.weekday == 4 then true
    else if (t.hour == 6 && t.minute >= 30) || (t.hour > 6 && t.hour < 10) then false
    else if t.hour >= 15 && t.hour < 19 then false
    else true
  }

  /** The edges of the two peak windows on an ordinary Monday to Thursday. */
  lemma PeakBoundaries(date: string, weekday: Weekday)
    requires !IsPublicHoliday(date) && weekday < 4
    ensures IsOffPeakTime(SydneyTime(date, weekday, 6, 29))
    ensures !IsOffPeakTime(SydneyTime(date, weekday, 6, 30))
    ensures !IsOffPeakTime(SydneyTime(date, weekday, 9, 59))
    ensures IsOffPeakTime(SydneyTime(date, weekday, 10, 0))
    ensures IsOffPeakTime(SydneyTime(date, weekday, 14, 59))
    ensures !IsOffPeakTime(SydneyTime(date, weekday, 15, 0))
    ensures !IsOffPeakTime(SydneyTime(date, weekday, 18, 59))
    ensures IsOffPeakTime(SydneyTime(date, weekday, 19, 0))
  {
  }

  /** Peak time needs an ordinary Monday to Thursday inside a window. */
  lemma PeakNeedsWorkingDay(t: SydneyTime)
    requires !IsOffPeakTime(t)
    ensures t.weekday <= 3 && !IsPublicHoliday(t.date)
    ensures (6 <= t.hour < 10) || (15 <= t.hour < 19)
  {
  }
}
