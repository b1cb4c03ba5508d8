# Sydney trip planner — verified model of its core

This project is a Dafny model of the deterministic core of a Sydney
public-transport trip planner, written in Python with FastAPI. The model
covers six parts:

- the **Opal fare engine**: station-name cleaning, the order-independent
  `"A->B"` distance key, five distance bands, airport access fees, and the
  30% off-peak discount;
- the **distance-map generator**: the nested loop that fills the distance
  table from the Opal "Rail" sheet;
- the **off-peak classifier** and the **public-holiday tables** for
  2024–2027;
- **station-name translation** into Chinese: the transport-mode keywords,
  name cleaning, per-segment lookup, and platform and "Station" handling;
- the **trip-response reshaper**, `format_trip_response`, together with
  the time-conversion helper;
- the **journey time filter**, `filter_journeys_by_time`, and the
  request validator `TripRequest.validate_times` with the schema defaults.

Modelling conventions:

- Money is in integer cents. Distances are `real`.
- Strings are `seq<char>`. The Python `str` operations the core uses are
  defined in module `Text`: `in`, `replace`, `split`, `join`, `strip`,
  `lower`, `isdigit` and ordering.
- ISO-8601 parsing, rendering and time-zone conversion are one
  `IsoCodec` value, passed in as a parameter. It holds a partial parser, a
  renderer, and two maps to an absolute instant: one for `astimezone`
  and one for `localize`.
- The current time is also a parameter.
- Upstream JSON is modelled as datatypes whose optional keys are `Option`
  values.
- The two services are classes. Their constructors take the already
  loaded tables.
- Where the source loops (the table merge, name cleaning, segment
  translation, the distance-map loop, response formatting, journey
  filtering), the model is a method with a loop. Each such method is proved
  equal to a specification function, and the properties are proved as
  lemmas about that function.

| Dafny file | source file |
|---|---|
| `opal_fare.dfy` (module `OpalFare`) | app/services/opal_fare_service.py |
| `distance_map.dfy` (module `DistanceMap`) | scripts/generate_distance_map.py |
| `date_utils.dfy` (module `DateUtils`) | app/utils/date_utils.py |
| `public_holidays.dfy` (module `PublicHolidays`) | app/utils/public_holidays.py |
| `station_translation.dfy` (module `StationTranslation`) | app/services/station_translation_service.py |
| `tfnsw.dfy` (module `Tfnsw`), `upstream.dfy` (module `Upstream`), `iso_time.dfy` (module `IsoTime`) | app/services/tfnsw_service.py |
| `api_utils.dfy` (module `ApiUtils`) | app/utils/api_utils.py |
| `trip_schema.dfy` (module `TripSchema`) | app/schemas/trip.py |
| `text.dfy`, `wrappers.dfy` | Python `str`, `dict.get` and truthiness |

## Model

| member | source | states |
|---|---|---|
| OpalFare.DigitRun | app/services/opal_fare_service.py:50 | the length of the maximal run of digits at the head of the text (the `\d+` of the platform pattern) |
| OpalFare.RemovePlatforms | app/services/opal_fare_service.py:50 | removing `", Platform <digits>"` never lengthens the name |
| OpalFare.RemovePlatformsSplice | app/services/opal_fare_service.py:50 | a comma-free prefix followed by `", Platform "`, a digit run and a non-digit: the match is removed and the rest is processed the same way |
| OpalFare.RemovePlatformsAtMatch | app/services/opal_fare_service.py:50 | a match at the head is removed whole, digits included |
| OpalFare.RemovePlatformsNoMatchAppend | app/services/opal_fare_service.py:50 | text without a comma passes through the platform rewrite unchanged, even when more text follows |
| OpalFare.RemovePlatformsNoComma | app/services/opal_fare_service.py:50 | a name without a comma has no platform to remove |
| OpalFare.DigitRunPrefix | app/services/opal_fare_service.py:50 | the digit run of `digits + rest` (rest not starting with a digit) is exactly the digits |
| OpalFare.Chomp | app/services/opal_fare_service.py:52-54 | where a regex `$` can match: the end, or just before one final newline |
| OpalFare.FirstSuburb | app/services/opal_fare_service.py:52 | finds a position where `, [A-Za-z ]+` runs to `$`, or proves that none exists |
| OpalFare.SuburbAtUnique | app/services/opal_fare_service.py:52 | at most one position can start a trailing suburb segment |
| OpalFare.StripSuburb | app/services/opal_fare_service.py:52 | a trailing `", <letters/spaces>"` segment is cut before `$`, and nothing else changes |
| OpalFare.StripStationSuffix | app/services/opal_fare_service.py:54 | a trailing `" Station"` before `$` is cut; otherwise the name is unchanged |
| OpalFare.CleanStationName | app/services/opal_fare_service.py:46-56 | `clean_station_name`: the platform rewrite, then the suburb rewrite, then the `" Station"` rewrite; the cleaned name is never longer than the name |
| OpalFare.NoCommaClean | app/services/opal_fare_service.py:46-56 | on a comma-free name, cleaning only strips the `" Station"` suffix |
| OpalFare.CleanFixesPlainName | app/services/opal_fare_service.py:46-56 | a plain name (no comma, newline or `" Station"` suffix) is its own clean form |
| OpalFare.CleanDropsStation | app/services/opal_fare_service.py:54 | `name + " Station"` cleans to `name` |
| OpalFare.CleanFullName | app/services/opal_fare_service.py:46-56 | `"<name> Station, Platform <digits>, <suburb>"` cleans to `<name>` for every such name, digit run and suburb |
| OpalFare.CleanNameAndSuburb | app/services/opal_fare_service.py:52-54 | `"<name> Station, <suburb>"` cleans to `<name>` |
| OpalFare.SuburbStripped | app/services/opal_fare_service.py:52 | `x + ", " + suburb` loses exactly the suburb segment |
| OpalFare.RemovePlatformsSuburb | app/services/opal_fare_service.py:50-52 | a `", <suburb>"` tail is not mistaken for a platform segment |
| OpalFare.StationSuffixExample | app/services/opal_fare_service.py:54 | the suffix rewrite inverts appending `" Station"` |
| OpalFare.CleanCentralExample | app/services/opal_fare_service.py:46-56 | `"Central Station, Platform 16, Sydney"` cleans to `"Central"` |
| OpalFare.CleanChatswood | app/services/opal_fare_service.py:46-56 | `"Chatswood Station, Sydney"` cleans to `"Chatswood"` |
| OpalFare.DistanceKey | app/services/opal_fare_service.py:68-69 | the key is `a->b` when `a` sorts first, otherwise `b->a` (Python code-point order) |
| OpalFare.DistanceKeySymmetric | app/services/opal_fare_service.py:68-69 | the key does not depend on argument order |
| Text.LessTotal | app/services/opal_fare_service.py:68 | two different names are always ordered one way or the other, as `sorted` needs |
| Text.LessAsymmetric | app/services/opal_fare_service.py:68 | the name order is asymmetric |
| OpalFare.GetFareBand | app/services/opal_fare_service.py:83-97 | the band's rank counts exactly the limits 10, 20, 35 and 65 that the distance exceeds, so each boundary falls in the lower band |
| OpalFare.FareBandMonotone | app/services/opal_fare_service.py:83-97 | a longer distance never gives a lower band or a cheaper base fare |
| OpalFare.FareBandBoundaries | app/services/opal_fare_service.py:86-95 | 10, 20, 35 and 65 km fall in the lower band; 65.01 km is `65+` |
| OpalFare.CalculateAccessFee | app/services/opal_fare_service.py:99-102 | the fee is 1540 cents when the cleaned name is one of the five airport stations, else 0 |
| OpalFare.OffPeakFare | app/services/opal_fare_service.py:116-119 | the base fare less 30%, rounded to the nearest cent with halves up |
| OpalFare.OpalFareService.constructor | app/services/opal_fare_service.py:9-11 | the service holds the distance map it was given |
| OpalFare.OpalFareService.GetStationDistance | app/services/opal_fare_service.py:58-81 | a distance exactly when the sorted key of the cleaned names is in the map, and then the stored one |
| OpalFare.OpalFareService.CalculateFare | app/services/opal_fare_service.py:104-141 | None exactly when no distance is found; otherwise the fare record for that distance and the two stations' fees, with an access fee in {0, 1540, 3080} cents |
| OpalFare.FareFor | app/services/opal_fare_service.py:113-134 | base fare = band's fare; off-peak fields present iff off-peak; access = origin fee + destination fee; total = base + access; off-peak total = off-peak fare + access |
| OpalFare.StationDistanceSymmetric | app/services/opal_fare_service.py:68-69 | the distance from A to B equals the distance from B to A |
| OpalFare.FareSymmetric | app/services/opal_fare_service.py:104-134 | the fare from A to B equals the fare from B to A |
| OpalFare.OffPeakKeepsBaseAndTotal | app/services/opal_fare_service.py:116-132 | asking for off-peak keeps the base fare, the access fee and the total, and the off-peak fare is strictly cheaper |
| OpalFare.OffPeakFareKeepsBase | app/services/opal_fare_service.py:116-132 | the same, for any distance and fees |
| OpalFare.FareWithoutAccessFee | app/services/opal_fare_service.py:104-134 | between two non-airport stations with a known distance, the total is the band's fare and the off-peak total is its discounted fare |
| DistanceMap.GenerateDistanceMap | scripts/generate_distance_map.py:16-33 | the nested loop leaves the table after all rows, as defined row by row and cell by cell |
| DistanceMap.BuildMap | scripts/generate_distance_map.py:16-33 | the table after the first n rows, each row writing its cells left to right; a later row never removes a key an earlier row wrote |
| DistanceMap.CellsProvenance | scripts/generate_distance_map.py:22-33 | after part of a row, each key either kept its old value or holds a written cell of that row |
| DistanceMap.CellsKeep | scripts/generate_distance_map.py:22-33 | cells that do not write a key leave it as it was |
| DistanceMap.CellsLast | scripts/generate_distance_map.py:22-33 | within a row, the last cell writing a key decides its value |
| DistanceMap.KeyProvenance | scripts/generate_distance_map.py:16-33 | every stored key came from a text origin, a present header different from the origin, and a present distance cell, and holds that cell's value |
| DistanceMap.LastWriteWins | scripts/generate_distance_map.py:16-33 | for a repeated pair, the cell visited last in row-then-column order wins |
| DistanceMap.LastWriterExists | scripts/generate_distance_map.py:16-33 | every written key has a last writer |
| DistanceMap.LatestCell | scripts/generate_distance_map.py:16-22 | a non-empty set of cells has a last one in visiting order |
| DistanceMap.WrittenKeyPresent | scripts/generate_distance_map.py:16-33 | every cell that writes puts its key in the table |
| DistanceMap.MirrorCellsShareKey | scripts/generate_distance_map.py:30-32 | the (A,B) and (B,A) cells write the same key |
| DistanceMap.LookupFindsWritten | scripts/generate_distance_map.py:30-33 | the fare engine's lookup, in either direction, finds the distance the generator wrote last for that pair |
| DateUtils.HolidayYears | app/utils/date_utils.py:13-40 | every date `is_public_holiday` accepts is a 2024 or 2025 `YYYY-MM-DD` date |
| DateUtils.IsPublicHoliday | app/utils/date_utils.py:91-110 | `is_public_holiday`: the date text is one of the 2024 or 2025 holiday dates, and so a ten-character date |
| DateUtils.MinuteOfDay | app/utils/date_utils.py:135-137 | the clock time is a minute of the day |
| DateUtils.IsOffPeakTime | app/utils/date_utils.py:112-162 | off-peak exactly on a public holiday, on Friday to Sunday, or outside 06:30–09:59 and 15:00–18:59 |
| DateUtils.PeakBoundaries | app/utils/date_utils.py:151-158 | from Monday to Thursday on a working day, 06:29 is off-peak, 06:30 and 09:59 are peak, 10:00 and 14:59 are off-peak, 15:00 and 18:59 are peak, 19:00 is off-peak |
| DateUtils.PeakNeedsWorkingDay | app/utils/date_utils.py:130-158 | a peak time is a Monday-to-Thursday non-holiday in the 6–9 or 15–18 hours |
| PublicHolidays.GetHolidaysForYear | app/utils/public_holidays.py:76-86 | a non-empty table exactly for 2024–2027, an empty one for any other year; every date in it is in that year, and no two holidays share a date |
| PublicHolidays.TablesInTheirYears | app/utils/public_holidays.py:6-74 | `HOLIDAYS_BY_YEAR` has the keys 2024–2027; each table is non-empty, all of its dates are `YYYY-MM-DD` in its own year, and no two of its holiday names share a date |
| PublicHolidays.Distinct2024 | app/utils/public_holidays.py:6-18 | no two 2024 holidays fall on the same date |
| PublicHolidays.Distinct2025 | app/utils/public_holidays.py:21-33 | no two 2025 holidays fall on the same date |
| PublicHolidays.Distinct2026 | app/utils/public_holidays.py:36-48 | no two 2026 holidays fall on the same date |
| PublicHolidays.Distinct2027 | app/utils/public_holidays.py:51-66 | no two 2027 holidays fall on the same date, substitute days included |
| PublicHolidays.Dates2024 | app/utils/public_holidays.py:6-18 | every 2024 date is in 2024 |
| PublicHolidays.Dates2025 | app/utils/public_holidays.py:21-33 | every 2025 date is in 2025 |
| PublicHolidays.Dates2026 | app/utils/public_holidays.py:36-48 | every 2026 date is in 2026 |
| PublicHolidays.Dates2027 | app/utils/public_holidays.py:51-66 | every 2027 date is in 2027 |
| PublicHolidays.HolidaysForKnownYears | app/utils/public_holidays.py:69-74 | each year 2024–2027 gives its own table |
| PublicHolidays.OffPeakTablesAgree | app/utils/date_utils.py:13-40 | the 2024 and 2025 tables the off-peak check uses equal those in the holiday module |
| PublicHolidays.SubstituteDays2027 | app/utils/public_holidays.py:51-66 | 2027 has the Anzac Day, Christmas Day and Boxing Day substitute holidays; 2026 has no Anzac or Christmas substitute |
| PublicHolidays.LaterYearsNotHolidays | app/utils/date_utils.py:102-110 | no 2026 or 2027 holiday counts as a holiday for the off-peak check |
| PublicHolidays.NotEarlierYear | app/utils/date_utils.py:102-110 | a date in 2026 or 2027 is never in the 2024/2025 lists |
| StationTranslation.MergeHasName | app/services/station_translation_service.py:21-23 | a name is in the merged table exactly when some mode table has it |
| StationTranslation.MergeLastWins | app/services/station_translation_service.py:21-23 | the merged entry is that of the last table holding the name |
| StationTranslation.MergeTables | app/services/station_translation_service.py:21-23 | `all_translations`: the tables merged in order by `dict.update`; every table's names are kept, and the last table's entries win |
| StationTranslation.LaterModeOverrides | app/services/station_translation_service.py:13-23 | a trainlink entry overrides the same name in every earlier mode |
| StationTranslation.StationTranslationService.constructor | app/services/station_translation_service.py:12-23 | the mode map holds the five tables; the `update` loop leaves their merge in mode order |
| StationTranslation.GetTransportMode | app/services/station_translation_service.py:43-70 | each outcome exactly: "metro" iff the lower-cased mode contains "metro"; "train" iff it contains "train" and not "metro"; "ferry" iff it contains "ferries" or "ferry" and neither earlier keyword; "lightrail" iff it contains "light rail" or "lightrail" and none of the earlier keywords; None iff the mode is empty or contains none of the seven keywords; a "trainlink" mode is never "trainlink" |
| StationTranslation.TrainsIsTrain | app/services/station_translation_service.py:55-62 | "trains" and "trainlink" both contain "train", so the "trains" test and the "trainlink" branch add nothing |
| StationTranslation.ModeIgnoresCase | app/services/station_translation_service.py:49 | modes equal up to case give the same result |
| StationTranslation.ModeOfUpper | app/services/station_translation_service.py:49 | upper-casing the mode does not change its result |
| StationTranslation.LowerUpper | app/services/station_translation_service.py:49 | lower-casing the upper-cased text gives the lower-cased text |
| StationTranslation.RemoveEach | app/services/station_translation_service.py:85-86 | removing the patterns in turn never lengthens the name, and changes nothing when none occurs |
| StationTranslation.RemoveEachDeletes | app/services/station_translation_service.py:85-86 | the first pass deletes the first occurrence of its text, keeps what comes before it, and goes on scanning after it |
| StationTranslation.CleanedName | app/services/station_translation_service.py:72-87 | the cleaned name is never longer than the name |
| StationTranslation.CleanOnlyStrips | app/services/station_translation_service.py:72-87 | a name containing no suffix to remove is only stripped of surrounding spaces |
| StationTranslation.CleanDropsStationWord | app/services/station_translation_service.py:72-87 | `name + " Station"` cleans to the stripped name, the same as `name` alone, for every name holding none of the removed texts |
| StationTranslation.CleanStationName | app/services/station_translation_service.py:72-87 | the replace loop computes the cleaned name |
| Text.Strip | app/services/station_translation_service.py:87 | the result is a slice of the input with only whitespace cut from each end, and it neither starts nor ends with whitespace |
| StationTranslation.EntryGet | app/services/station_translation_service.py:92 | `dict.get`: a value exactly when the language is in the entry |
| StationTranslation.StationTranslationService.FindTranslation | app/services/station_translation_service.py:89-93 | a translation exactly when the name is in the merged table and has that language |
| StationTranslation.StationTranslationService.TranslateParts | app/services/station_translation_service.py:108-143 | as many output segments as input parts |
| StationTranslation.TranslatePartsPointwise | app/services/station_translation_service.py:108-143 | output segment `k` is input part `k`, stripped and translated: one output per part, in input order |
| StationTranslation.StationTranslationService.TranslateOnePart | app/services/station_translation_service.py:112-142 | the loop body yields the segment's translation: template, mode table, merged table, or the part itself |
| StationTranslation.StationTranslationService.TranslateStationName | app/services/station_translation_service.py:95-147 | the loop over parts returns the parts' translations joined with `", "` (or the name for English) |
| StationTranslation.StationTranslationService.TranslatedName | app/services/station_translation_service.py:95-147 | what `_translate_station_name` returns: the name itself for English, else the comma-separated parts translated and joined with `", "` |
| StationTranslation.StationTranslationService.TranslateStationNames | app/services/station_translation_service.py:149-180 | the public entry point returns the translated name as defined |
| StationTranslation.UntranslatedCases | app/services/station_translation_service.py:164-178 | the name comes back unchanged when it is empty, when the language is not "zh", or when the mode is not recognised |
| StationTranslation.PlatformTemplate | app/services/station_translation_service.py:113-117 | in Chinese, a part mentioning "Platform" or "platform" becomes "站台" followed by only its digits |
| Text.Digits | app/services/station_translation_service.py:114 | the kept characters are digits and no more than the part's length |
| StationTranslation.ModeTableFirst | app/services/station_translation_service.py:124-128 | a non-empty entry in the mode's own table is used first |
| StationTranslation.MergedTableSecond | app/services/station_translation_service.py:130-142 | without a mode entry, the merged table is used, else the part is kept |
| StationTranslation.StationSuffixRule | app/services/station_translation_service.py:119-142 | "站" is appended exactly when a translation was found, the language is "zh" and the part said "Station"; without a translation the part is kept |
| StationTranslation.SegmentCountKept | app/services/station_translation_service.py:108-145 | with comma-free tables, the translated name has as many comma-separated segments as the input |
| StationTranslation.PartCommaFree | app/services/station_translation_service.py:110-142 | a translated segment contains no comma when the tables contain none |
| Text.JoinSplit | app/services/station_translation_service.py:108 | splitting on a comma and joining with the comma gives the input back |
| Text.SplitJoinCount | app/services/station_translation_service.py:145 | joining comma-free segments with `", "` and splitting again gives as many segments |
| Text.Split | app/services/station_translation_service.py:108 | `str.split` gives at least one part, and no part contains the separator |
| Text.Lower | app/services/station_translation_service.py:49 | `str.lower` keeps the length and lowers each character |
| Text.ReplaceAll | app/services/station_translation_service.py:86 | `str.replace` leaves text without the pattern unchanged |
| Text.ReplaceSplice | app/services/station_translation_service.py:86 | `str.replace` replaces the first occurrence: `x + pat + y` becomes `x + repl` followed by the replacement of `y`, when `x` holds no occurrence and the pattern's first character does not recur in it |
| Text.RemoveShortens | app/services/station_translation_service.py:86 | removing a pattern never lengthens the text |
| Text.ContainsIffOccurs | app/services/station_translation_service.py:53 | the substring test `in` holds exactly when the pattern occurs at some index |
| IsoTime.ReplaceZ | app/services/tfnsw_service.py:46 | `replace('Z', '+00:00')` leaves no `Z`, and leaves `Z`-free text unchanged |
| IsoTime.ParseUpstream | app/services/tfnsw_service.py:46 | on `Z`-free text, the parse is the codec's own |
| IsoTime.ConvertToSydneyTime | app/services/tfnsw_service.py:39-52 | empty, "Unknown" and unparseable text come back unchanged; any other text that parses comes back as the Sydney rendering of its parsed instant (the same function also stands for `convert_to_sydney_time` at app/utils/date_utils.py:68-89, whose body is identical) |
| IsoTime.ConvertEmpty | app/services/tfnsw_service.py:39-52 | an empty result comes only from empty input or a rendering that is empty |
| IsoTime.WholeMinutes | app/services/tfnsw_service.py:145 | `int(seconds / 60)` truncates toward zero in both signs |
| IsoTime.WholeMinutesOdd | app/services/tfnsw_service.py:145 | negating the seconds negates the minutes |
| IsoTime.MinutesBetween | app/services/tfnsw_service.py:143-145 | defined exactly when both instants are naive or both are aware (else the subtraction raises TypeError); non-negative when the end is not earlier |
| Tfnsw.OrUnknown | app/services/tfnsw_service.py:151-152 | `x or "Unknown"` is never empty and keeps non-empty text |
| Tfnsw.ElapsedMinutes | app/services/tfnsw_service.py:140-147 | 0 when either time is missing or unparseable or when they mix naive and aware; otherwise the difference in whole minutes |
| Tfnsw.LegShape | app/services/tfnsw_service.py:156-195 | the mode is the product name, else "Unknown"; the line is the number, else ""; present names are kept and missing ones become "Unknown"; a present planned or optional time becomes its Sydney rendering, a missing planned time "Unknown"; arrival at the origin and departure at the destination are None exactly when missing or empty; the leg duration follows the duration rule |
| Tfnsw.EmptyLegDefaults | app/services/tfnsw_service.py:173-195 | an empty leg formats to mode "Unknown", line "", duration 0, names "Unknown", planned times "Unknown" |
| Tfnsw.DefaultsAgreeWithSchema | app/schemas/trip.py:5-15 | those defaults agree with the `Location` and `TripLeg` field defaults |
| Tfnsw.FormatLegs | app/services/tfnsw_service.py:156-196 | one output leg per input leg, in order |
| Tfnsw.FormatLegList | app/services/tfnsw_service.py:156-196 | the inner loop appends exactly the formatted legs |
| Tfnsw.JourneyDuration | app/services/tfnsw_service.py:139-147 | the try block computes the elapsed minutes |
| Tfnsw.FormatJourney | app/services/tfnsw_service.py:134-196 | fails (IndexError) exactly when `legs` is present but empty; otherwise the duration is the elapsed minutes from the first leg's planned departure to the last leg's planned arrival, the start and end times are those two times in Sydney time or "Unknown", and the legs are the input legs formatted in order |
| Tfnsw.JourneyEndsFromLegs | app/services/tfnsw_service.py:136-152 | for a non-empty leg list: the duration runs from the first leg's departure to the last leg's arrival (waits and transfers included), a missing end reads "Unknown", and a present end is the same text as the first output leg's departure or the last output leg's arrival |
| Tfnsw.FormatOneJourney | app/services/tfnsw_service.py:134-198 | the loop body formats one journey as defined |
| Tfnsw.MissingLegsJourney | app/services/tfnsw_service.py:136-137 | a journey without a `legs` key gives duration 0, "Unknown" times and no legs |
| Tfnsw.SingleLegDuration | app/services/tfnsw_service.py:136-171 | for a one-leg journey, the journey's duration equals the leg's |
| Tfnsw.DurationMeetsSchema | app/schemas/trip.py:18 | a journey whose end is not before its start satisfies `duration >= 0` |
| Tfnsw.BackwardsTimesBreakSchema | app/schemas/trip.py:18 | a journey ending a minute or more before it starts yields a negative duration, which the schema rejects |
| Tfnsw.FormatResponse | app/services/tfnsw_service.py:128-130 | no `journeys` key gives an empty journey list |
| Tfnsw.FormatJourneys | app/services/tfnsw_service.py:133-198 | the journey loop: raises exactly when some journey has a present but empty `legs` list, else one output journey per input journey |
| Tfnsw.ResponseShape | app/services/tfnsw_service.py:132-202 | with journeys: fails exactly when one has empty legs; otherwise one formatted journey per input journey, in order |
| Tfnsw.FormatTripResponse | app/services/tfnsw_service.py:115-205 | the loop builds exactly the formatted response |
| Tfnsw.MapInOrderErrIff | app/services/tfnsw_service.py:134-198 | the loop raises exactly when some item raises |
| Tfnsw.MapInOrderPointwise | app/services/tfnsw_service.py:134-198 | without an error, the output has one result per item, each that item's result |
| Tfnsw.FormatJourneysShape | app/services/tfnsw_service.py:134-198 | the journey loop fails exactly when one journey has empty legs, and otherwise maps each journey in order |
| ApiUtils.Departure | app/utils/api_utils.py:94-97 | a departure exactly when legs are present and non-empty and the first leg's planned departure is non-empty |
| ApiUtils.Reference | app/utils/api_utils.py:82-90 | the given time (an error if it does not parse), localised to Sydney when it is naive and kept as it is when aware, or the current time when none is given |
| ApiUtils.Verdict | app/utils/api_utils.py:94-101 | raises exactly when the departure is present and does not parse; keeps exactly when it parses and is at or after the reference |
| ApiUtils.Filter | app/utils/api_utils.py:79-90 | no journeys gives `[]` before the reference is looked at; a bad reference raises |
| ApiUtils.Keep | app/utils/api_utils.py:92-101 | the journey loop against a parsed reference: nothing for no journeys, otherwise at most as many journeys as given, or the first departure's parse error |
| ApiUtils.FilterJourneysByTime | app/utils/api_utils.py:68-104 | the loop returns the filter's result |
| ApiUtils.KeepErrIff | app/utils/api_utils.py:93-101 | the filter raises exactly when some journey's departure does not parse |
| ApiUtils.KeepIsSubsequence | app/utils/api_utils.py:92-101 | the kept journeys are a subsequence of the input, in input order |
| ApiUtils.KeepMembers | app/utils/api_utils.py:94-101 | a journey is kept exactly when it is an input journey whose departure parses and is at or after the reference |
| ApiUtils.NoDepartureDropped | app/utils/api_utils.py:94-97 | a journey without legs or without a first departure is never kept |
| ApiUtils.KeepMonotone | app/utils/api_utils.py:100 | a later reference keeps a subsequence of what an earlier one keeps |
| ApiUtils.KeepIdempotent | app/utils/api_utils.py:94-101 | filtering the kept journeys again keeps them all |
| ApiUtils.FilterIdempotent | app/utils/api_utils.py:79-101 | filtering twice with the same reference time equals filtering once |
| TripSchema.DefaultLeg | app/schemas/trip.py:10-15 | a leg built from only its locations has mode "Unknown", no line and duration 0 |
| TripSchema.ValidateTimes | app/schemas/trip.py:32-42 | both times set: the conflict error; neither: valid; exactly one: an error exactly when it does not parse after the `Z` rewrite |
| TripSchema.ConflictBeforeFormat | app/schemas/trip.py:34-35 | with both times set, the outcome does not depend on the parser |
| TripSchema.EmptyTimeIgnored | app/schemas/trip.py:37-38 | an empty time string counts as not given |

## Left out

- File and JSON loading (`load_distance_map`, `_load_translations`, reading the Excel sheet, writing `distance_map.json`) is I/O. The constructors and `GenerateDistanceMap` take the loaded tables or sheet as values, and a translation file that fails to load is passed in as an empty table.
- ISO-8601 parsing, `astimezone`/`localize` to Australia/Sydney, `strftime` and `datetime.now` depend on the tz database and the clock. They are the `IsoCodec` parameter and a `now` parameter. `IsoCodec.localize` is the Sydney reading of a naive reference time; `IsoCodec.astimezone` is the instant of a departure time, which for a naive departure depends on the server's local zone.
- Binary floating point is not modelled: money is in integer cents, with off-peak rounding half up. Python's `round(6.05 * 0.7, 2)` can differ by a cent from exact half-up rounding, because the product is not exact in binary.
- The `except Exception: return None` paths of `get_station_distance` and `calculate_fare` are not modelled. In the model no operation inside them can raise, so only the missing-key path returns None.
- JSON values of unexpected types (null, or a number where text is expected) are not modelled. Each optional key is either absent or of the expected type. For the same reason, numeric sheet headers and text distance cells are not modelled.
- `str.lower`, `str.isdigit` and the regex class `\d` are modelled on ASCII letters and digits only; Python's `\d` in a `str` pattern also matches other Unicode decimal digits.
- Logging is not modelled.
- The HTTP request in `get_trip_plan` and `make_api_request`, Redis, the routes and the configuration are outside this model.
- Tfnsw.FormatLeg: its contract is stated in the lemma `Tfnsw.LegShape` rather than on the function itself.
- OpalFare.OpalFareService.CalculateFare: returns the fare for the looked-up distance, but does not state the concrete figures for any particular station pair, since those depend on the loaded distance table.
