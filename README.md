# Booking analytics dashboard: a verified model of its list processing

The dashboard loads a semicolon-separated export of accommodation bookings. It lets the user
select bookings by a date range, or compare two calendar years. The dashboard layout
(`src/components/dashboard/DashboardLayout.tsx:107-232`) mounts:
- the upload control, the comparison toggle, the year or range picker and the region selection;
- the key figures;
- the commissions chart and the arrivals chart, only outside year-comparison mode;
- the per-accommodation and per-city tables;
- the booking list;
- the CSV and PDF exports.

The repository holds further dashboard components that the layout does not render:
`CancellationsChart` is imported but never mounted, and `YearComparisonTable`,
`CancellationRateOverview`, `TrendsChart`, `TopAccommodationsChart`, `CancellationRateChart` and
`RegionFilter` are not imported at all. They are components of the project nevertheless, and
this model covers them too.

This project models the logic behind those components, and proves what each promises about
its output.

The model covers:
- **Import.** The header rename table and the per-cell transform (`CsvUploader`).
- **Selection.** The filter engine that picks the current and the comparison records
  (`DashboardLayout`). The region lists and the reset control of the range picker and of
  the region selector (`DateRangePicker`, `RegionFilter`).
- **Group-by folds.** Each one follows its own component:
  - accommodations and cities (`TopAccommodationsTable`, `TopCitiesTable`);
  - the twelve fixed month buckets (`YearComparisonTable`);
  - the key figures and the cancellation overview (`KPICards`, `CancellationRateOverview`);
  - the charts, grouped by service name, day, arrival month or booking month
    (`TopAccommodationsChart`, `TrendsChart`, `ArrivalsChart`, `CommissionsChart`,
    `CancellationsChart`, `CancellationRateChart`).
- **Export.** The CSV text and the PDF table body (`ExportTools`).

Where the source mutates state step by step, the model is a `method` with a loop, proved equal
to a specification function. This covers:
- every `forEach` or `reduce` that fills a map;
- the region and city sets;
- the merge that pushes rows;
- the day-filling `while` loop.

Properties are then proved about those functions. The shared modules define the common
vocabulary:
- `Values`: JavaScript division results (`Ratio`: finite, NaN or infinite) and the
  percentage change.
- `Calendar`: dates with a time of day, `startOfDay`, `endOfDay`, `addDays`,
  `differenceInDays`, `isWithinInterval`, `min`, `max`, and the `yyyy-MM` / `MM` /
  `dd.MM.yyyy` keys.
- `Groups`: a JavaScript `Map` or object in insertion order, as an association list, with
  the generic group-by fold and its lemmas.
- `Sequences`: sums, counts, filters, a stable descending sort with a top-N cut, and a key
  sort.
- `Text`: split, join, code-point order and lower-casing.

## Model

| member | source | states |
|---|---|---|
| Bookings.NetPrice | src/components/dashboard/KPICards.tsx:18-19 | a cancelled booking keeps no revenue, any other keeps its full price |
| Bookings.NetCommission | src/components/dashboard/KPICards.tsx:20-21 | a cancelled booking keeps no commission, any other keeps its commission |
| Bookings.CancelledCount | src/components/dashboard/KPICards.tsx:17 | adding 1 per cancelled booking gives the number of cancelled bookings, which is between 0 and the number of bookings |
| Values.Divide | src/components/dashboard/charts/CancellationsChart.tsx:48 | a quotient is finite iff the divisor is non-zero (then times the divisor it gives the dividend), NaN iff both are zero, and otherwise an infinity with the dividend's sign |
| Values.Scale | src/components/dashboard/charts/CancellationsChart.tsx:48 | multiplying by a positive factor keeps a number finite, NaN or infinite; a finite number is scaled exactly, and NaN and infinities are unchanged |
| Values.PercentChange | src/components/dashboard/TopCitiesTable.tsx:121 | the change times the previous value is the difference times 100, and it is positive iff the value moved away from zero past the previous one |
| Values.ChangePercent | src/components/dashboard/KPICards.tsx:70 | on finite operands the change is the exact percentage change; an infinite previous value or a NaN current value gives NaN |
| Values.ChangePercentPositive | src/components/dashboard/KPICards.tsx:71 | on finite values the change is positive iff the value grew (previous positive) or fell further (previous negative) |
| Values.PercentageBounds | src/components/dashboard/charts/CancellationsChart.tsx:48 | a share of at most the whole, in percent, lies between 0 and 100 |
| Calendar.StartOfDay | src/components/dashboard/DashboardLayout.tsx:68 | the result is on the same day, at its first instant, not after the input |
| Calendar.EndOfDay | src/components/dashboard/DashboardLayout.tsx:69 | the result is on the same day, at its last instant, not before the input |
| Calendar.NextDay | src/components/dashboard/charts/TrendsChart.tsx:55 | adding a day gives the same time of day on the next calendar day; it fails only on the last day of year 9999 |
| Calendar.DifferenceInDays | src/components/dashboard/YearComparisonTable.tsx:45-48 | full days between two instants: the calendar-day difference at equal times of day, signed by the order of the instants and not clamped |
| Calendar.IsWithinInterval | src/components/dashboard/DashboardLayout.tsx:67-70 | throws "Invalid interval" exactly when start is after end; otherwise true iff start <= date <= end, both ends included |
| Calendar.Earliest | src/components/dashboard/charts/ArrivalsChart.tsx:40 | the minimum is one of the dates and is not after any of them |
| Calendar.Latest | src/components/dashboard/charts/ArrivalsChart.tsx:41 | the maximum is one of the dates and is not before any of them |
| Calendar.MonthKeyInMonthKeys | src/components/dashboard/YearComparisonTable.tsx:37-38 | every date's `MM` key is one of the twelve initialised keys, the one at its month's position, so the bucket lookup always finds a bucket |
| CsvUploader.TransformHeader | src/components/dashboard/CSVUploader.tsx:19-41 | a header in the rename table becomes its field name; any other header is lower-cased |
| CsvUploader.KnownHeaders | src/components/dashboard/CSVUploader.tsx:20-39 | each of the eighteen known headers becomes its fixed field name |
| CsvUploader.KeysHaveUpper | src/components/dashboard/CSVUploader.tsx:20-39 | every key of the rename table has an upper-case letter, so a lower-cased header never hits the table |
| CsvUploader.UnknownHeaderStable | src/components/dashboard/CSVUploader.tsx:40 | an unknown header is lower-cased, and transforming the result again changes nothing |
| CsvUploader.NeverIsCancelled | src/components/dashboard/CSVUploader.tsx:19-41 | no header, known or not, becomes the field name `isCancelled` |
| CsvUploader.Transform | src/components/dashboard/CSVUploader.tsx:42-62 | the `cancelled` field becomes the flag `value == "WAHR"`; every field without a rule is returned unchanged |
| CsvUploader.CancelledFlag | src/components/dashboard/CSVUploader.tsx:55-57 | a `cancelled` cell is true iff it is `WAHR`; `FALSCH`, the empty cell and every other text give false |
| CsvUploader.GermanDateReordered | src/components/dashboard/CSVUploader.tsx:47-54 | a `D.M.Y` arrival, departure or cancellation date is handed on as `Y-M-D` |
| CsvUploader.EmptyCancellationDate | src/components/dashboard/CSVUploader.tsx:51-61 | an empty cancellation date is not converted and falls through unchanged |
| CsvUploader.BookingDateJoined | src/components/dashboard/CSVUploader.tsx:43-46 | a booking date `date time` is handed on as `dateTtime`; without a time the text `undefined` is appended |
| CsvUploader.FirstCommaOnly | src/components/dashboard/CSVUploader.tsx:58-60 | only the first comma of a price or commission becomes a decimal point |
| CsvUploader.DataAfterDrop | src/components/dashboard/CSVUploader.tsx:63-70 | a complete parse replaces the dataset with its rows; a parse error, or no drop, leaves the loaded dataset untouched |
| DashboardLayout.UniqueRegions | src/components/dashboard/DashboardLayout.tsx:35-43 | the region list is sorted, holds no duplicates, and holds x iff x is non-empty and some record has region x |
| DashboardLayout.RangeTest | src/components/dashboard/DashboardLayout.tsx:60-77 | unless both bounds are set only the region is tested; with both set the test throws iff the day-rounded interval is inverted, and otherwise passes iff the arrival lies in it and the region matches |
| DashboardLayout.YearData | src/components/dashboard/DashboardLayout.tsx:48-58 | every kept record arrives in the selected year and matches the region |
| DashboardLayout.RangeData | src/components/dashboard/DashboardLayout.tsx:60-82 | every kept record passes the range test; a test that throws rejects the record |
| DashboardLayout.FilteredData | src/components/dashboard/DashboardLayout.tsx:46-84 | the selection is no longer than the data; in year mode every kept record has the first year and the region, in range mode the region |
| DashboardLayout.ComparisonData | src/components/dashboard/DashboardLayout.tsx:86-99 | undefined exactly outside year mode; otherwise records of the second year matching the region |
| DashboardLayout.SelectionsAreSubsequences | src/components/dashboard/DashboardLayout.tsx:48-99 | both selections keep their records in input order, as subsequences of the data |
| DashboardLayout.YearModeKeeps | src/components/dashboard/DashboardLayout.tsx:48-53 | in year mode a record is kept iff it arrives in the selected year and the region is empty or equal |
| DashboardLayout.OpenRangeKeeps | src/components/dashboard/DashboardLayout.tsx:62-75 | unless both bounds are set, a record is kept iff the region is empty or equal |
| DashboardLayout.BoundedRangeKeeps | src/components/dashboard/DashboardLayout.tsx:65-77 | with both bounds set, a record is kept iff start of the first day <= arrival <= end of the last day, and the region matches |
| DashboardLayout.InvertedRangeDropsAll | src/components/dashboard/DashboardLayout.tsx:67-81 | with an inverted interval the test throws for every record, and every record is dropped |
| DashboardLayout.NoRestrictionKeepsAll | src/components/dashboard/DashboardLayout.tsx:73-75 | the empty region with no complete range keeps every record |
| DashboardLayout.ComparisonKeeps | src/components/dashboard/DashboardLayout.tsx:88-93 | in year mode a record is a comparison record iff it arrives in the second year and the region matches |
| DateRangePicker.RegionOptions | src/components/dashboard/DateRangePicker.tsx:27-28 | the first option is `Alle Regionen`; the rest are sorted, distinct, and are exactly the regions of the records (the empty one included) |
| DateRangePicker.MinDate | src/components/dashboard/DateRangePicker.tsx:31-34 | undefined iff there are no records; otherwise midnight (ms 0) of a day some record arrives on, not after any arrival — the start of the earliest arrival's day |
| DateRangePicker.MaxDate | src/components/dashboard/DateRangePicker.tsx:36-39 | undefined iff there are no records; otherwise the last millisecond of a day some record arrives on, not before any arrival — the end of the latest arrival's day |
| DateRangePicker.SelectableDays | src/components/dashboard/DateRangePicker.tsx:31-39 | minDate is 00:00:00.000 and maxDate 23:59:59.999; minDate <= maxDate; every arrival lies between them and on a day between theirs; each is on the day of some arrival |
| DateRangePicker.ShowResetUnlessReset | src/components/dashboard/DateRangePicker.tsx:119-125 | the reset control is shown iff the selection differs from what the reset writes |
| DateRangePicker.InitialShowsReset | src/components/dashboard/DashboardLayout.tsx:33 | the initial selection (no bounds, empty region) keeps every record, yet the reset control is shown |
| DateRangePicker.ResetHidesRecords | src/components/dashboard/DateRangePicker.tsx:122-125 | after the reset as written, only records whose region is literally `Alle Regionen` remain; one booking from any other region disappears |
| DateRangePicker.CorrectedResetKeepsAll | src/components/dashboard/DashboardLayout.tsx:73-75 | after a reset to the empty region, every record is kept |
| RegionFilter.RegionsOfRecords | src/components/dashboard/RegionFilter.tsx:12 | a region is among the mapped regions iff some record carries it |
| RegionFilter.RegionOptionsShape | src/components/dashboard/RegionFilter.tsx:11-14 | the options are sorted; x is an option iff it is the label or some record's region; when no record has the label as region, each option occurs once and there are distinct regions + 1 options |
| RegionFilter.LabelNotPinned | src/components/dashboard/RegionFilter.tsx:13 | a record region that sorts before the label (such as `Aachen`) puts the label out of first place |
| KPICards.StatsOf | src/components/dashboard/KPICards.tsx:15-33 | total = number of records; cancelled = count of cancelled records, at most the total; revenue and commission add up only non-cancelled records; the rate is 0 without records, otherwise cancelled/total*100; the average divides by total - cancelled |
| KPICards.ComparisonStatsOf | src/components/dashboard/KPICards.tsx:35-55 | undefined iff there are no comparison records; otherwise the same formulas |
| KPICards.CancellationRateBounds | src/components/dashboard/KPICards.tsx:22 | the cancellation rate lies between 0 and 100 |
| KPICards.CancelledAddNothing | src/components/dashboard/KPICards.tsx:18-21 | cancelled bookings add nothing to revenue or commission |
| KPICards.AllCancelledAverageIsNaN | src/components/dashboard/KPICards.tsx:23 | when every booking is cancelled, the average commission is 0/0 = NaN |
| KPICards.AllCounted | src/components/dashboard/KPICards.tsx:17 | when every booking is cancelled, all of them are counted as cancelled |
| KPICards.CardChange | src/components/dashboard/KPICards.tsx:68-72 | a change label appears iff in year-comparison mode with a comparison value, and it is `calculateChange` of the two |
| KPICards.AverageCommissionLabel | src/components/dashboard/KPICards.tsx:45-72 | against a comparison set whose bookings are all cancelled, the average-commission label is empty |
| Change.RatioToFixed | src/components/dashboard/KPICards.tsx:71 | the text is non-empty, equals `toFixed` for a finite number, starts with '-' iff the number is negative, and never starts with '+' |
| Change.SignedPercent | src/components/dashboard/TopCitiesTable.tsx:122 | the label ends in '%', starts with '+' iff the change is positive, and with '-' iff it is negative |
| Change.CalculateChange | src/components/dashboard/TopCitiesTable.tsx:119-123 | empty iff the previous value is undefined or 0; otherwise the signed one-decimal percentage change |
| Change.ChangeColor | src/components/dashboard/TopCitiesTable.tsx:125-128 | empty iff the previous value is falsy; green iff current >= previous, red otherwise |
| Change.FiniteChange | src/components/dashboard/KPICards.tsx:68-77 | on finite numbers: no label iff previous is undefined or 0; otherwise '+' iff the value grew away from zero, and green iff current >= previous |
| CancellationRateOverview.StatsOf | src/components/dashboard/CancellationRateOverview.tsx:32-60 | total = number of records; cancelled = count of cancelled records; kept commission from non-cancelled records; lost commission from cancelled ones; rate and loss rate are the unguarded quotients times 100 |
| CancellationRateOverview.CommissionSplit | src/components/dashboard/CancellationRateOverview.tsx:36-50 | kept plus lost commission is the commission of all bookings |
| CancellationRateOverview.CancellationRateRange | src/components/dashboard/CancellationRateOverview.tsx:55 | without bookings the rate is NaN; with bookings it is finite and between 0 and 100 |
| CancellationRateOverview.Abs | src/components/dashboard/CancellationRateOverview.tsx:79 | the magnitude is never negative |
| CancellationRateOverview.Indicator | src/components/dashboard/CancellationRateOverview.tsx:71-80 | no indicator iff the previous rate is falsy; otherwise red and an up arrow iff the change is positive, green and a down arrow otherwise, with the one-decimal magnitude |
| CancellationRateOverview.FiniteIndicator | src/components/dashboard/CancellationRateOverview.tsx:71-76 | a zero previous rate shows nothing; with a positive previous rate the indicator is red iff the rate rose |
| YearComparisonTable.TallyMeaning | src/components/dashboard/YearComparisonTable.tsx:36-55 | a month's bucket counts the bookings arriving in it and the cancelled ones, and sums their full prices, commissions and nights, cancelled bookings included |
| YearComparisonTable.RateBounds | src/components/dashboard/YearComparisonTable.tsx:58-62 | every final rate lies between 0 and 100, and is 0 for a month without bookings |
| YearComparisonTable.NoBookingsUpTo | src/components/dashboard/YearComparisonTable.tsx:24-33 | without records every bucket starts and stays at zero bookings |
| YearComparisonTable.BookingsUpToStep | src/components/dashboard/YearComparisonTable.tsx:37-42 | one more record adds one booking to exactly the bucket of its arrival month |
| YearComparisonTable.BookingsPartition | src/components/dashboard/YearComparisonTable.tsx:36-42 | the bookings of the twelve months add up to the number of records |
| YearComparisonTable.CalculateMonthlyStats | src/components/dashboard/YearComparisonTable.tsx:20-65 | the result has exactly the keys `01`..`12`, in order, and each bucket is that month's tally after the rate pass |
| YearComparisonTable.AddAll | src/components/dashboard/YearComparisonTable.tsx:35-55 | starting from twelve zero buckets, each bucket ends as the fold of its month's records (price, commission, count, nights, cancelled count) |
| YearComparisonTable.ApplyRates | src/components/dashboard/YearComparisonTable.tsx:57-62 | every month with bookings gets its cancelled count turned into a percentage; a month without bookings keeps 0 |
| YearComparisonTable.CalculateChange | src/components/dashboard/YearComparisonTable.tsx:89-94 | `-` iff the previous value is 0; otherwise the signed one-decimal change, with '+' iff the value grew away from zero |
| TopCitiesTable.CityName | src/components/dashboard/TopCitiesTable.tsx:43 | every record has a non-empty city key: its service city, or `Unbekannt` |
| TopCitiesTable.CalculateStats | src/components/dashboard/TopCitiesTable.tsx:33-70 | the loop leaves exactly the fold's map, with each city once |
| TopCitiesTable.CityTotalsMeaning | src/components/dashboard/TopCitiesTable.tsx:42-66 | a city has an entry iff some record falls under it; the entry counts bookings and cancelled bookings (cancelled <= bookings) and sums kept revenue and commission |
| TopCitiesTable.BookingsPartition | src/components/dashboard/TopCitiesTable.tsx:42-62 | the cities' booking counts add up to the number of records |
| TopCitiesTable.NightsStayZero | src/components/dashboard/TopCitiesTable.tsx:49-64 | nights are carried over and never added to, so every city reports 0 nights |
| TopCitiesTable.Combined | src/components/dashboard/TopCitiesTable.tsx:79-100 | one row per current city, in map order, with its name, revenue, bookings, commission, nights and cancelled bookings; all five comparison values are set iff the comparison map has the city, and then hold its revenue, bookings, commission, nights and cancelled bookings |
| TopCitiesTable.Merge | src/components/dashboard/TopCitiesTable.tsx:79-100 | the pushing loop yields exactly the combined rows |
| TopCitiesTable.ComputeCityStats | src/components/dashboard/TopCitiesTable.tsx:31-106 | the memo body yields exactly the sorted and cut combined rows |
| TopCitiesTable.CityStatsTop | src/components/dashboard/TopCitiesTable.tsx:103-105 | the rows are sorted by revenue, highest first, there are min(all, 30) of them, they come from the combined rows, and no row left out has more revenue than a listed one |
| TopCitiesTable.NoComparisonNoValues | src/components/dashboard/TopCitiesTable.tsx:76-96 | without comparison records no listed row has any of the five comparison values |
| TopAccommodationsTable.AccommodationKey | src/components/dashboard/TopAccommodationsTable.tsx:69 | a booking is folded iff its name is non-empty, under that name |
| TopAccommodationsTable.CityOrUnknown | src/components/dashboard/TopAccommodationsTable.tsx:77 | the city is the service city, or `Unbekannt` when that is empty |
| TopAccommodationsTable.InCity | src/components/dashboard/TopAccommodationsTable.tsx:55-57 | the folded bookings are input bookings of the selected city, or all when no city is selected |
| TopAccommodationsTable.CalculateStats | src/components/dashboard/TopAccommodationsTable.tsx:53-109 | the loop leaves exactly the fold's map, with each name once |
| TopAccommodationsTable.TotalsMeaning | src/components/dashboard/TopAccommodationsTable.tsx:68-106 | a name has an entry iff some named booking of the selected city carries it; the entry counts bookings and cancelled ones (cancelled <= bookings), sums kept revenue, commission and unclamped nights, and has the first booking's city |
| TopAccommodationsTable.TotalsBounds | src/components/dashboard/TopAccommodationsTable.tsx:100-103 | every entry has at least one booking and at most that many cancelled |
| TopAccommodationsTable.TotalsInSelectedCity | src/components/dashboard/TopAccommodationsTable.tsx:55-57 | with a city selected, every entry carries that city |
| TopAccommodationsTable.Combined | src/components/dashboard/TopAccommodationsTable.tsx:118-140 | one row per current name, in map order, with its city, revenue, bookings, commission, nights and cancelled bookings; all five comparison values are set iff the comparison map has the name, and then hold its totals; no change field is set |
| TopAccommodationsTable.Merge | src/components/dashboard/TopAccommodationsTable.tsx:118-140 | the pushing loop yields exactly the combined rows |
| TopAccommodationsTable.ComputeAccommodationStats | src/components/dashboard/TopAccommodationsTable.tsx:51-146 | the memo body yields exactly the sorted and cut combined rows |
| TopAccommodationsTable.AccommodationStatsTop | src/components/dashboard/TopAccommodationsTable.tsx:143-145 | sorted by revenue, highest first; min(all, 30) rows taken from the combined rows; no row left out has more revenue than a listed one |
| TopAccommodationsTable.ListedRows | src/components/dashboard/TopAccommodationsTable.tsx:68-140 | every listed row has a name, at least one booking, cancelled <= bookings, no change values, and, with a city selected, that city |
| TopAccommodationsTable.SecondCityFilterKeepsAll | src/components/dashboard/TopAccommodationsTable.tsx:160 | the second city filter removes no row |
| TopAccommodationsTable.Cities | src/components/dashboard/TopAccommodationsTable.tsx:149-157 | the city list is sorted, holds no duplicates, and holds x iff x is non-empty and some record has service city x |
| TopAccommodationsTable.CancellationRateColor | src/components/dashboard/TopAccommodationsTable.tsx:176-180 | red iff rate >= 0.2, yellow iff 0.1 <= rate < 0.2, green iff rate < 0.1 |
| TopAccommodationsTable.CsvHeaders | src/components/dashboard/TopAccommodationsTable.tsx:183-206 | the eight base columns, followed by the nine comparison columns exactly when there are comparison records |
| TopAccommodationsTable.CsvFields | src/components/dashboard/TopAccommodationsTable.tsx:210-236 | as many fields as the header: rank, name, city, then revenue, bookings, commission, nights and cancelled bookings as written numbers; with comparison records each of the five comparison columns is empty iff the row has no such value, and otherwise holds it |
| TopAccommodationsTable.ChangeColumnsEmpty | src/components/dashboard/TopAccommodationsTable.tsx:229-232 | since no change field is set, the four change columns of every exported row are empty |
| TopAccommodationsTable.OptionalFixed | src/components/dashboard/TopAccommodationsTable.tsx:224 | empty text iff there is no value |
| TopAccommodationsTable.OptionalInt | src/components/dashboard/TopAccommodationsTable.tsx:225 | empty text iff there is no value |
| TopAccommodationsTable.OptionalChange | src/components/dashboard/TopAccommodationsTable.tsx:229-232 | an absent or zero change is written as empty text |
| TopAccommodationsTable.HeaderFields | src/components/dashboard/TopAccommodationsTable.tsx:183-209 | the header line splits back into the headers and holds no line break |
| TopAccommodationsTable.PlainFields | src/components/dashboard/TopAccommodationsTable.tsx:212-233 | numbers are written without ';' or line breaks, so a row whose name and city hold neither (and whose change columns are empty) has no field holding one |
| TopAccommodationsTable.CsvLineFields | src/components/dashboard/TopAccommodationsTable.tsx:236 | a row line whose fields hold no ';' splits back into those fields |
| TopAccommodationsTable.CsvContentLines | src/components/dashboard/TopAccommodationsTable.tsx:208-238 | when no field holds a line break, the text splits back into the header line and one line per row, in table order |
| TopAccommodationsTable.ExportedTable | src/components/dashboard/TopAccommodationsTable.tsx:208-238 | for the listed rows, when no name or city holds ';' or a line break, the export splits back into the header and one line per row, and each line into that row's fields |
| ExportTools.CancellationDateText | src/components/dashboard/ExportTools.tsx:132 | the cancellation-date field is empty iff the booking has no cancellation date |
| ExportTools.CsvRow | src/components/dashboard/ExportTools.tsx:115-134 | every row has as many fields as the header, eighteen |
| ExportTools.LineAvoids | src/components/dashboard/ExportTools.tsx:139 | a character (other than ';') that no field holds does not occur in the joined line |
| ExportTools.CsvLines | src/components/dashboard/ExportTools.tsx:137-140 | when no field holds a line break, the text splits back into the header line and one line per booking, in input order |
| ExportTools.CsvFields | src/components/dashboard/ExportTools.tsx:137-139 | when no field holds a ';', a line splits back into the booking's eighteen fields, and the header line into the eighteen headers |
| ExportTools.HeaderFields | src/components/dashboard/ExportTools.tsx:94-113 | the header line splits back into the eighteen headers and holds no line break |
| ExportTools.SemicolonShiftsColumns | src/components/dashboard/ExportTools.tsx:139 | fields are not quoted: a ';' inside a field yields more than eighteen columns |
| ExportTools.CancelledRoundTrip | src/components/dashboard/ExportTools.tsx:131 | the `WAHR`/`FALSCH` column reads back through the importer's rule as the same flag |
| ExportTools.DateRoundTrip | src/components/dashboard/ExportTools.tsx:117-132 | a `dd.MM.yyyy` date reads back through the importer's rule as the date's ISO text |
| ExportTools.DatesRoundTrip | src/components/dashboard/ExportTools.tsx:118-132 | arrival, departure and cancellation columns read back as their dates; an absent cancellation date reads back as the empty cell |
| ExportTools.AmountsRoundTrip | src/components/dashboard/ExportTools.tsx:123-133 | for number text without a comma, the importer's first-comma swap restores the exported price and commission text |
| ExportTools.UnreadFieldKeys | src/components/dashboard/CSVUploader.tsx:20-39 | only the importer's own headers map to the booking code, service city, accommodation name, service country and commission |
| ExportTools.HeaderNotUnread | src/components/dashboard/ExportTools.tsx:94-113 | no exported header becomes one of those five fields on import |
| ExportTools.ExportHeadersOnImport | src/components/dashboard/ExportTools.tsx:94-113 | an exported file is not read back field for field: its `Stadt` column (the service city) is imported as the customer's city, and five fields are never filled |
| ExportTools.PdfRow | src/components/dashboard/ExportTools.tsx:39-50 | every PDF row has ten cells, as many as the head row |
| ExportTools.PdfBody | src/components/dashboard/ExportTools.tsx:39-50 | one ten-cell row per booking, in input order, starting with the booking code, with `Ja` iff the booking is cancelled |
| TopAccommodationsChart.GroupByService | src/components/dashboard/charts/TopAccommodationsChart.tsx:25-37 | the reducing loop leaves exactly the fold's map |
| TopAccommodationsChart.ServiceTotalsMeaning | src/components/dashboard/charts/TopAccommodationsChart.tsx:25-36 | a name (the empty one too) has a group iff some booking carries it; the group counts those bookings and sums their full prices, cancelled ones included |
| TopAccommodationsChart.BookingsPartition | src/components/dashboard/charts/TopAccommodationsChart.tsx:35 | the groups' bookings add up to the number of records |
| TopAccommodationsChart.PointOf | src/components/dashboard/charts/TopAccommodationsChart.tsx:40-44 | a bar keeps the group's values; with bookings its average is revenue/bookings |
| TopAccommodationsChart.AveragesDefined | src/components/dashboard/charts/TopAccommodationsChart.tsx:27-44 | every bar has at least one booking, so its average is finite |
| TopAccommodationsChart.ComputeChartData | src/components/dashboard/charts/TopAccommodationsChart.tsx:23-58 | the memo body yields exactly the sorted and cut bars |
| TopAccommodationsChart.ChartTop | src/components/dashboard/charts/TopAccommodationsChart.tsx:45-55 | sorted by the metric, highest first; min(groups, 10) bars taken from the groups; none left out ranks higher; every bar has a finite average |
| TopAccommodationsChart.EmptyChart | src/components/dashboard/charts/TopAccommodationsChart.tsx:23-58 | the chart is empty iff there are no records |
| TrendsChart.GroupByDay | src/components/dashboard/charts/TrendsChart.tsx:23-36 | the reducing loop leaves exactly the fold's map |
| TrendsChart.DayTotalsMeaning | src/components/dashboard/charts/TrendsChart.tsx:23-36 | a day has an entry iff some booking was made on it; the entry counts them and sums full prices and commissions, cancelled ones included |
| TrendsChart.PointOf | src/components/dashboard/charts/TrendsChart.tsx:48-54 | a point is labelled with its day; a day without bookings gets zero revenue, bookings and commissions, otherwise the day's totals |
| TrendsChart.Days | src/components/dashboard/charts/TrendsChart.tsx:47-56 | the visit is empty when the start is after the end, and otherwise starts at the start |
| TrendsChart.DaysConsecutive | src/components/dashboard/charts/TrendsChart.tsx:47-56 | the i-th visited day is i days after the first, at the same time of day |
| TrendsChart.DaysCount | src/components/dashboard/charts/TrendsChart.tsx:47-56 | between two instants at the same time of day, one day is visited per calendar day, both ends included |
| TrendsChart.DaysDistinct | src/components/dashboard/charts/TrendsChart.tsx:47-56 | no day is visited twice |
| TrendsChart.DaysCover | src/components/dashboard/charts/TrendsChart.tsx:47-56 | every midnight between two midnights is visited |
| TrendsChart.DaysStep | src/components/dashboard/charts/TrendsChart.tsx:47-55 | one turn visits the current day and goes on from the next one |
| TrendsChart.FillDays | src/components/dashboard/charts/TrendsChart.tsx:42-57 | the `while` loop pushes exactly the point of every visited day, in order |
| TrendsChart.FillStep | src/components/dashboard/charts/TrendsChart.tsx:47-56 | one turn of the filling loop keeps its invariant |
| TrendsChart.ComputeChartData | src/components/dashboard/charts/TrendsChart.tsx:21-60 | the memo body yields exactly the filled chart |
| TrendsChart.EmptyChart | src/components/dashboard/charts/TrendsChart.tsx:42-43 | the chart is empty iff there are no records |
| TrendsChart.KeysAreDays | src/components/dashboard/charts/TrendsChart.tsx:24 | every key is a midnight, the start of some booking's day |
| TrendsChart.ChartSpan | src/components/dashboard/charts/TrendsChart.tsx:39-56 | one point per day from the first key to the last, consecutive and in order, each labelled with its day |
| TrendsChart.ChartBounds | src/components/dashboard/charts/TrendsChart.tsx:39-45 | the first key is the day of the earliest booking and the last key the day of the latest |
| TrendsChart.TotalBookings | src/components/dashboard/charts/TrendsChart.tsx:33-52 | the bookings of all points add up to the number of records |
| ChartRange.FullDateRange | src/components/dashboard/charts/ArrivalsChart.tsx:35-43 | each bound is missing iff there are no records |
| ChartRange.FullDateRangeBounds | src/components/dashboard/charts/ArrivalsChart.tsx:38-42 | the bounds are arrivals of some records, and every arrival lies between them |
| ChartRange.EffectiveRange | src/components/dashboard/charts/ArrivalsChart.tsx:48-51 | each bound is the selected one when set, and the full range's otherwise, independently |
| ChartRange.OpenRangeCoversAll | src/components/dashboard/charts/CommissionsChart.tsx:38-51 | without a selection both effective bounds exist, are ordered, and every record lies in the range |
| ArrivalsChart.MonthlyData | src/components/dashboard/charts/ArrivalsChart.tsx:55-68 | the loop throws for an inverted range on a non-empty list, and otherwise leaves exactly the fold's map |
| ArrivalsChart.ComputeMonthlyArrivals | src/components/dashboard/charts/ArrivalsChart.tsx:45-77 | the memo body yields exactly the specified outcome |
| ArrivalsChart.ArrivalsOutcome | src/components/dashboard/charts/ArrivalsChart.tsx:46-53 | no records give []; with records both effective bounds exist and the chart throws iff the range is inverted |
| ArrivalsChart.ArrivalsMeaning | src/components/dashboard/charts/ArrivalsChart.tsx:58-76 | months in ascending key order, each once; a month is listed iff some in-range record arrives in it, with the number of those records, at least 1 |
| ArrivalsChart.ArrivalsTotal | src/components/dashboard/charts/ArrivalsChart.tsx:60-66 | the counts add up to the number of records in the effective range |
| ArrivalsChart.OpenRangeCountsAll | src/components/dashboard/charts/ArrivalsChart.tsx:49-50 | without a selected range nothing throws, and the counts add up to the number of records |
| CommissionsChart.MonthlyData | src/components/dashboard/charts/CommissionsChart.tsx:55-68 | the loop throws for an inverted range on a non-empty list, and otherwise leaves exactly the fold's map |
| CommissionsChart.ComputeMonthlyCommissions | src/components/dashboard/charts/CommissionsChart.tsx:45-77 | the memo body yields exactly the specified outcome |
| CommissionsChart.CommissionsOutcome | src/components/dashboard/charts/CommissionsChart.tsx:46-53 | no records give []; with records both effective bounds exist and the chart throws iff the range is inverted |
| CommissionsChart.CommissionsMeaning | src/components/dashboard/charts/CommissionsChart.tsx:58-76 | months in ascending key order, each once; a month is listed iff some in-range record arrives in it, with the commissions of those records, cancelled ones included |
| CommissionsChart.OpenRangeListsAll | src/components/dashboard/charts/CommissionsChart.tsx:49-50 | without a selected range nothing throws, and every record's arrival month is listed |
| CancellationsChart.GroupByBookingMonth | src/components/dashboard/charts/CancellationsChart.tsx:23-42 | the reducing loop leaves exactly the fold's map |
| CancellationsChart.MonthTotalsMeaning | src/components/dashboard/charts/CancellationsChart.tsx:24-39 | a month has totals iff some booking was made in it (booking date, not arrival); it counts them and the cancelled ones, with 0 <= cancelled <= total |
| CancellationsChart.StoredTotals | src/components/dashboard/charts/CancellationsChart.tsx:27-39 | each month once, filed under its own month, with total >= 1 and cancelled <= total |
| CancellationsChart.ComputeChartData | src/components/dashboard/charts/CancellationsChart.tsx:21-52 | the memo body yields exactly the sorted points |
| CancellationsChart.SortedTotals | src/components/dashboard/charts/CancellationsChart.tsx:51 | the sorted totals are in ascending key order, each key once, and keep those bounds |
| CancellationsChart.ChartMonths | src/components/dashboard/charts/CancellationsChart.tsx:45-51 | the chart lists each month once, in ascending order |
| CancellationsChart.ChartRates | src/components/dashboard/charts/CancellationsChart.tsx:48 | every point has total >= 1, cancelled <= total, and a finite rate between 0 and 100 |
| CancellationsChart.TotalsPartition | src/components/dashboard/charts/CancellationsChart.tsx:36 | the totals of all points add up to the number of records |
| CancellationRateChart.MonthlyData | src/components/dashboard/charts/CancellationRateChart.tsx:39-55 | the loop throws for an inverted range on a non-empty list, and otherwise leaves exactly the counters |
| CancellationRateChart.ComputeMonthlyRates | src/components/dashboard/charts/CancellationRateChart.tsx:36-64 | the memo body yields exactly the specified outcome |
| CancellationRateChart.RatesOutcome | src/components/dashboard/charts/CancellationRateChart.tsx:37-44 | [] without both bounds or without records; otherwise the chart throws iff the range is inverted |
| CancellationRateChart.CounterMeaning | src/components/dashboard/charts/CancellationRateChart.tsx:43-53 | a month has a counter iff some record in the range (bounds as given) arrives in it; it counts those records and those the cancellation test holds for |
| CancellationRateChart.EntryRate | src/components/dashboard/charts/CancellationRateChart.tsx:46-62 | a stored counter's month has at least one record, and its rate is the finite share in percent, between 0 and 100 |
| CancellationRateChart.RatesMeaning | src/components/dashboard/charts/CancellationRateChart.tsx:58-63 | each month once, ascending; each rate is the share in percent of cancelled records among the month's in-range records, between 0 and 100 |
| CancellationRateChart.TotalsPartition | src/components/dashboard/charts/CancellationRateChart.tsx:44-48 | the counted records add up over the months to the records in the range |
| CancellationRateChart.AsWrittenRatesZero | src/components/dashboard/charts/CancellationRateChart.tsx:49-51 | as written (reading `isCancelled`), every month's rate is 0, whatever the records' `cancelled` flags |
| CancellationRateChart.SingleRecord | src/components/dashboard/charts/CancellationRateChart.tsx:42-63 | a single record inside the range gives one point: its month with 1 record and 1 or 0 cancelled |
| CancellationRateChart.OneCancelledBooking | src/components/dashboard/charts/CancellationRateChart.tsx:49-62 | one cancelled booking in a one-day range: 0 % as written, 100 % when its `cancelled` flag is read |

## Left out

- Tokenising the file (PapaParse: delimiter, quoting, `dynamicTyping`) and the drop zone are not modelled. The model starts from the header and cell strings, and a parse outcome is a parameter of `DataAfterDrop`.
- Turning date text into a `Date` and number text into a number are not modelled. `new Date(...)` and `parseFloat` are host library code. `Transform` returns the text they would receive.
- Floating point is not modelled. Money is an exact `real`, so rounding is absent. NaN and infinities appear only where a division produces them (`Ratio`). The `typeof ... === 'number'` / `parseFloat(... || '0')` fallbacks and the `|| 0` guards are omitted, because every loaded amount is a number here.
- `Number.prototype.toString`, `toFixed` and `Intl.NumberFormat` / `DateTimeFormat` (currency, percentage and date formatting) are parameters or fixed textual functions, because they belong to the JavaScript host. `formatDate` is the `dd.MM.yyyy` text.
- Month labels (`format(..., 'MMM yyyy', { locale: de })`) are left to the renderer. The chart points keep the `yyyy-MM` key they are sorted by.
- Time zones and daylight saving time are not modelled. Dates are local calendar dates with a time of day, and a day always has 24 hours.
- Missing and invalid dates are not modelled. Every booking has valid booking, arrival and departure dates. The year range is limited to 0-9999.
- `localeCompare` and the default array sort are code-point order on strings. Locale collation is not modelled.
- `Object.values` / `Object.keys` order: a JavaScript object is modelled like a `Map`, in insertion order. For the month and day keys (`yyyy-MM`, `yyyy-MM-dd`) this is the object's own order, because those keys are not integer-like. Accommodation names are a different case, described under `TopAccommodationsChart.GroupByService` below.
- `TopAccommodationsChart.GroupByService`: the model is a `Map` keyed by the service name. The source uses a plain object (`acc[name]`), and that differs in two ways. A name that is an inherited member of `Object.prototype` (`constructor`, `toString`, `__proto__`, ...) finds the inherited value, so no group is created for it. An integer-like name such as `101` is listed by `Object.values` before all other names, in ascending numeric order. That changes the order of tied entries before the stable sort of `TopAccommodationsChart.ComputeChartData`, and so which ties survive the cut to 10. The model keeps first-arrival order for every name.
- `CsvUploader.TransformHeader`: the rename table is modelled as a `Map`. In the source, `headerMap[header] || header.toLowerCase()` looks the header up in a plain object, so a header named like an inherited member (`constructor`, `toString`, `__proto__`, ...) yields that inherited value instead of the lower-cased header. The model lower-cases such headers.
- `Text.ToLower`: lower-cases ASCII and Latin-1 letters only. JavaScript's `toLowerCase` applies the full Unicode case mapping, so headers with other letters can differ.
- `Calendar.IsWithinInterval`: follows date-fns version 2, where `isWithinInterval` throws a `RangeError` ("Invalid interval") when the start is after the end. date-fns version 3 orders the two bounds instead and does not throw. The package manifest is not part of this model, so the installed version is not known. The throwing outcomes stated by `DashboardLayout.RangeTest`, `DashboardLayout.InvertedRangeDropsAll`, `ArrivalsChart.MonthlyData`, `ArrivalsChart.ArrivalsOutcome`, `CommissionsChart.MonthlyData`, `CommissionsChart.CommissionsOutcome`, `CancellationRateChart.MonthlyData` and `CancellationRateChart.RatesOutcome` hold under version 2 only. Under version 3 an inverted range would select the records between the two bounds.
- TrendsChart's `Object.keys(...).sort()` on ISO strings is modelled as date order. For four-digit years the two agree.
- React state, hooks and `useMemo` are modelled as functions of their inputs. The reset control's effect is the new selection it writes.
- JSX, chart rendering (recharts, chart.js), jsPDF/autoTable layout, Blob/file-saver downloads, `alert` and `console` are not modelled.
- `DataTable`, `KPICard`, `FilterToggle`, `YearComparisonPicker` and the styling configuration are not part of this model, because they hold no list processing.
- The arrow icon and colour of `renderChangeCell` in the accommodation table are not modelled, because no change field is ever set (`TopAccommodationsTable.ChangeColumnsEmpty`).
- `CsvUploader.Transform`: only the `cancelled` rule and the fall-through are stated in its own contract. The date, booking-date and amount rules are stated by `GermanDateReordered`, `EmptyCancellationDate`, `BookingDateJoined` and `FirstCommaOnly`.

## Findings

| source | as written | input that shows it | evidently intended | confidence | as-written member | corrected member |
|---|---|---|---|---|---|---|
| src/components/dashboard/DateRangePicker.tsx:122-125 | The reset writes the region `Alle Regionen`. The filter treats only `''` as "all regions" (DashboardLayout.tsx:73-75), so after the reset only records whose region is literally `Alle Regionen` remain. | One booking with region `Bayern`: after the reset the selection is empty. | The reset restores the empty region, and every record is shown again. | not executed | DateRangePicker.ResetHidesRecords | DateRangePicker.CorrectedResetKeepsAll |
| src/components/dashboard/charts/CancellationRateChart.tsx:49 | The counter tests `booking.isCancelled`. Booking records carry `cancelled`, and no import header produces `isCancelled`, so every rate is 0. | One cancelled booking with the range [arrival, arrival]: the chart shows 0 %. | Test `booking.cancelled`, which shows 100 % for that input. | not executed | CancellationRateChart.AsWrittenRatesZero | CancellationRateChart.RatesMeaning |
