# Welding dashboard analytics, modelled in Dafny

This project models the analytics core of a browser dashboard for a flanged-head
welding shop. The dashboard loads two sheets: the welding operations ("main" data)
and the non-conformance records ("defect" data). From them it computes per-welder
figures, trends and defect breakdowns. The model covers three source files:

- `parser.js` types each raw CSV cell by its column name. It converts weld lengths
  from millimetres to metres and normalises welder names. It also resolves the order
  and bottom-number column aliases and builds the `order_bottom` key set of the
  defect sheet (`defectMap`, queried by `isDefective`).
- `app.js` is the metrics engine. It covers:
  - the row filter of `applyFilters` and the date-only defect filter;
  - splitting defects by workflow stage;
  - per-welder statistics, weighted score and ranking;
  - rework incidence;
  - the configurable defect rule;
  - the first-half/second-half trends of `updateStats`;
  - calendar bucketing (`groupByDate`, `prepareWelderLines`) and the month and
    quarter trends of `updateTrends`;
  - the page state these handlers replace (`allData`, `filteredData`,
    `filteredDefectData`, `defectRule`).
- `utils/helpers.js` holds:
  - strict `DD.MM.YYYY` validation, parsing, comparison and formatting of dates;
  - `groupBy`, `sortBy`, `unique`, `truncate`, `isEmpty`;
  - the palette branch of `generateColors`.

Modules:

- `JsText` holds the JavaScript runtime behaviour the code relies on:
  - `trim`, `toLowerCase`, `includes`, `split`;
  - `Number()`, `parseFloat`, `parseInt`, `String(number)`;
  - the default sort, ordering strings by character (code point).
- `Helpers` models `utils/helpers.js`, plus the generic sequence, grouping and fold
  machinery the rest of the model uses.
- `Parser` models `parser.js`.
- The metrics engine of `app.js` is split by component:
  - `Records`: column names, dates, welder keys and insertion-ordered sets;
  - `Filters`;
  - `Defects`;
  - `Welders`;
  - `Series`: `groupByDate` and `prepareWelderLines`;
  - `Trends`;
  - `Dashboard`: the page state, as a class.

How source structures are represented:

- A typed record is a `map<string, Cell>`, with `Cell = Str | Num | NaN`. A missing
  key is JavaScript `undefined`.
- JavaScript `Set`s and object key lists are insertion-ordered sequences without
  duplicates.
- Numbers are `real`s, unrounded. The source's `toFixed` only formats them for
  display.
- Loops that fill dictionaries or sets are methods. Each method is proved equal to a
  function that states the result without the loop. The module-level state that
  handlers reassign is the `Dashboard.Dashboard` and `Parser.DefectStore` classes.

Where one might expect otherwise, the model follows the code:

- Per-welder defects are joined by bottom number alone (`app.js:124`,
  `app.js:168-175`), not by the order-and-bottom key set.
- Defect rates divide by the number of operations. With a defect sheet, the
  overall rate in `updateStats` can exceed 100 % (`Trends.SheetDefectRateUnbounded`).
- The "other" stage histogram leaves out records whose stage is empty.
- Records are not dropped with a warning when malformed. Only the date-based
  computations skip records without a date.
- Rule equality is JavaScript's loose `==` on the value kinds the parser produces. It
  is not a stricter, type-exact comparison.

## Model

| member | source | states |
|---|---|---|
| Helpers.GenerateColors | utils/helpers.js:14-28 | no colours for a count ≤ 0; otherwise exactly `count` colours, the palette in order first and a generated HSL colour for each later index |
| Helpers.HslColor | utils/helpers.js:20-23 | the generated hue lies in [0, 360), saturation is one of 65/75/85 and lightness one of 45/60 |
| Helpers.FormatDate | utils/helpers.js:43-54 | "" for empty text; text not of three '.'-parts unchanged; otherwise "day mon year" when the month is 1..12, the text unchanged when not |
| Helpers.DaysInMonth | utils/helpers.js:65-66 | every month has 28 to 31 days |
| Helpers.ParseDate | utils/helpers.js:69-74 | a date exactly when isValidDate accepts the text, and that date is a real calendar date in 2000..2100 |
| Helpers.DatePartsAreIntegral | utils/helpers.js:58-60 | the three parts of a date split on '.' are whole numbers whenever Number accepts them |
| Helpers.DigitDateValidity | utils/helpers.js:56-67 | on "d.m.y" with digit parts, isValidDate holds exactly when day is 1..31 and within the month, month is 1..12 and year is 2000..2100 |
| Helpers.LeapDayExample | utils/helpers.js:56-67 | "29.02.2024" is accepted and "30.02.2024" rejected |
| Helpers.CompareDatesOrder | utils/helpers.js:76-83 | for two valid dates the sign of compareDates is the chronological order, 0 exactly for the same day |
| Helpers.CompareDatesAntisymmetric | utils/helpers.js:76-83 | compareDates(a, b) = −compareDates(b, a); two invalid dates compare equal; an invalid date ranks below a valid one |
| Helpers.DayNumberOrder | utils/helpers.js:82 | an earlier calendar date has a smaller day number (what `getTime` differences reflect) |
| Helpers.GroupBy | utils/helpers.js:85-92 | the keys in first-seen order and, for each, the items with that key in input order |
| Helpers.GroupsPartition | utils/helpers.js:85-92 | the groups' sums add up to the sum over all items: every item lies in exactly one group |
| Helpers.GroupIsSubsequence | utils/helpers.js:85-92 | each group keeps the input order |
| Helpers.GroupContainsAll | utils/helpers.js:85-92 | every item is in the group of its own key |
| Helpers.SortBy | utils/helpers.js:94-102 | a permutation of the input, ordered ascending for "asc" and descending otherwise |
| Helpers.InsertBy | utils/helpers.js:94-102 | inserting into a sorted list keeps it sorted and adds exactly that element |
| Helpers.Unique | utils/helpers.js:104-106 | no duplicates, exactly the input's elements |
| Helpers.UniqueFirstOccurrenceOrder | utils/helpers.js:104-106 | the elements come in the order of their first occurrence |
| Helpers.Truncate | utils/helpers.js:108-112 | "" for empty text; short text unchanged; longer text cut to its first maxLength−3 characters plus "...", of length maxLength when maxLength ≥ 3, and exactly "..." when maxLength < 3 |
| Helpers.IsEmptyIffBlank | utils/helpers.js:114-116 | isEmpty holds exactly for text made only of whitespace |
| JsText.Trim | parser.js:133 | the result is the slice of the input between its leading and its trailing whitespace (JavaScript's WhiteSpace and LineTerminator characters), and has no whitespace at either end |
| JsText.ToLower | app.js:745 | lower-casing keeps the length, maps each character on its own, and keeps whitespace and digits as they are |
| JsText.LowerChar | app.js:745 | the result is never a capital of the Latin-1, Greek or Cyrillic ranges folded here; whitespace and digits are kept |
| JsText.UpperChar | app.js:745 | upper-casing keeps whitespace as whitespace |
| JsText.CaseRoundTrip | app.js:745 | a folded capital changes when lowered and comes back when upper-cased |
| JsText.ToLowerIdempotent | app.js:745 | lower-casing twice equals lower-casing once |
| JsText.TrimOfLower | app.js:745 | lower-casing trimmed text leaves it trimmed |
| JsText.Split | utils/helpers.js:45 | split always yields at least one part, and no part holds the separator |
| JsText.ParseFloatAgreesWithNumber | parser.js:142 | on trimmed text that Number accepts, parseFloat reads the same number |
| JsText.ParseIntAgreesWithNumber | parser.js:138 | on trimmed '.'-free text that Number accepts, parseInt reads the same (whole) number |
| JsText.SortStrings | app.js:1617 | the default sort of distinct strings is strictly ascending and a permutation |
| JsText.NumberTextNoSpace | parser.js:212-213 | String(number) holds no whitespace, so trimming it changes nothing |
| Parser.FirstTruthyChoice | parser.js:50-63 | the alias chain yields the first truthy alias in priority order, and "" when none is set |
| Parser.KeyTextIsTrimmedText | parser.js:212-213 | `String(v).trim()` is the trimmed text of a string and the plain text of a number |
| Parser.TypeCellKinds | parser.js:132-151 | a typed cell that is text is the trimmed raw text; NaN arises only in an integer column that is not a string column |
| Parser.BottomNumberColumnStaysText | parser.js:134-137 | "Номер днища" is in both column lists and stays trimmed text: the string check runs first |
| Parser.IntegerColumnIsParsed | parser.js:138-139 | an integer column holding numeric '.'-free text becomes that number |
| Parser.WeldLengthInMetres | parser.js:142-148 | a plain number in the weld-length column is divided by 1000 on the welding sheet and kept on the defect sheet |
| Parser.CommaDecimalNotScaled | parser.js:140-141 | a comma-decimal value takes the comma branch and is not scaled |
| Parser.WeldLengthExample | parser.js:140-148 | "1500" and "1,5" in the weld-length column both become 1.5 |
| Parser.NonNumericKeptAsText | parser.js:149-151 | a value that is neither numeric nor comma-numeric is kept as the trimmed text, "" included |
| Parser.DateColumnsAreText | parser.js:12-35 | both date columns are string columns, so their cells stay text |
| Parser.NormalizeWelderName | parser.js:66-71 | the name holds no whitespace, '.', ',' or digit, and only characters of the input |
| Parser.NormalizeWelderNameIdempotent | parser.js:66-71 | normalising a normalised name changes nothing |
| Parser.NormalizeBlankName | parser.js:66-71 | blank input gives "" |
| Parser.FirstWordUpToSpace | parser.js:68 | the first word ends at the first whitespace character |
| Parser.NameBeforeSpace | parser.js:66-71 | a surname followed by any whitespace character (a no-break space too) and then initials normalises to the surname |
| Parser.NameColumnsAreText | parser.js:153-154 | every name alias of both sheets is a string column |
| Parser.FirstTruthyOfTextColumns | parser.js:153-154 | over string columns, the first truthy typed alias is the first alias whose trimmed raw text is not blank |
| Parser.FirstNonBlankChoice | parser.js:153-155 | the name chain picks the first alias whose trimmed raw text is not blank |
| Parser.FirstNonBlankNone | parser.js:153-155 | with every name alias blank or absent the chain yields "" |
| Parser.WelderFromFirstNameColumn | parser.js:153-155 | welder_normalized is the normalised first non-blank of Сварщик / ФИО / ФИО сварщика |
| Parser.TypedRowCells | parser.js:128-155 | a typed record has the raw columns plus the name column, each raw column typed by its name |
| Parser.TypeCells | parser.js:128-152 | the key-by-key loop yields every raw cell typed by its column |
| Parser.TypeRow | parser.js:127-156 | typing one record: its cells, then the normalised name |
| Parser.TypeRows | parser.js:126-157 | one typed record per raw record, in order |
| Parser.LinkKey | parser.js:211-215 | a record has a key exactly when both trimmed parts are set, and the key joins them with "_" |
| Parser.DefectKeys | parser.js:209-217 | defectMap, as a set, holds each key once |
| Parser.DefectKeysExactly | parser.js:209-217 | defectMap holds exactly the keys of the defect records whose order and bottom are both set, whatever their stage |
| Parser.LinkPairOfTexts | parser.js:50-63 | a record with order and bottom text links by that trimmed pair |
| Parser.DefectStore.constructor | parser.js:8-10 | the store starts empty |
| Parser.DefectStore.LoadDefects | parser.js:167-217 | an empty sheet changes nothing; otherwise the records are typed, the headers replaced, and defectMap is cleared and refilled to match the records |
| Parser.DefectStore.IsDefective | parser.js:232-237 | false without both keys; true exactly when some defect record has the same joined key |
| Parser.DefectStore.HasDefectData | parser.js:239-241 | true exactly when defect records are loaded |
| Parser.DefectKeyCollision | parser.js:216 | the key of order "12", bottom "3_4" is in the defectMap of a defect with order "12_3", bottom "4", though no defect has that pair |
| Parser.DefectStore.IsDefectivePair | parser.js:232-237 | the pair test: false without both keys; true exactly when some defect record has the same trimmed order and bottom |
| Parser.PairMatchImpliesKeyMatch | parser.js:209-237 | the key test never misses a defect the pair test finds |
| Records.DatePartsIntegral | app.js:1601-1602 | the day, month and year split out of a date are whole numbers |
| Records.EarlierIsStrictOrder | app.js:781-782 | comparing (year, month, day) is a strict total order |
| Records.WelderKey | app.js:123 | a welder key is never empty: an unset welder goes under "Неизвестно", a set name is itself |
| Records.TruthySetMembers | app.js:935-936 | the set holds exactly the truthy values picked from some record |
| Records.CollectTruthy | app.js:932-937 | the loop `if (v) set.add(v)` builds that set |
| Records.BottomSet | app.js:124 | the distinct bottoms of some records, each once and at most one per record |
| Records.BottomCountIsIntersection | app.js:178-184 | counting a record set's bottoms in another set counts each distinct bottom once |
| Records.TruthySetIsFold | app.js:1011-1014 | the set is the fold of `if (v) set.add(v)` from the empty set |
| Filters.ReadText | app.js:741-760 | the read text is trimmed, and blank exactly when the field is whitespace only |
| Filters.ReadSearch | app.js:741-760 | the read search text is trimmed and lower-case, and blank exactly when the field is whitespace only |
| Filters.ReadForm | app.js:741-760 | each read field is blank exactly when its input is whitespace only; every field is trimmed, and order, bottom, welder and cutting are lower-case |
| Filters.ReadFormIdempotent | app.js:741-760 | reading an already read form changes nothing |
| Filters.FilterMainIsSubsequence | app.js:771-885 | the filtered records keep the input order and are exactly the records the predicate admits |
| Filters.EmptyFormKeepsAll | app.js:771-885 | a form whose fields are all empty or whitespace only keeps every record |
| Filters.UndatedExcludedWhenBounded | app.js:772-776 | with a date bound set, a record without a parseable date is dropped |
| Filters.DateBoundsInclusive | app.js:778-791 | a dated record passes exactly when it is neither before the start nor after the end; both bounds are inclusive |
| Filters.MeasureMissingExcluded | app.js:828-835 | an active diameter filter drops records without a diameter |
| Filters.MeasureTextMatch | app.js:839-851 | text diameters match by number when both sides parse, otherwise by case-insensitive substring |
| Filters.DefectFilterKeepsUndated | app.js:42-45 | the defect filter keeps records without a parseable detection date |
| Filters.FilterDefectDataShape | app.js:36-69 | the defect filter keeps the input order, and blank bounds keep every record |
| Defects.StagePartition | app.js:72-95 | main and rework records are selected by exact label and never overlap; a record with a stage is in exactly one of main, rework and other |
| Defects.GetOtherDefectsData | app.js:88-104 | the labels of the other stages in first-seen order, each with the number of its records |
| Defects.OtherHistogramCounts | app.js:96-102 | every listed stage counts at least one record, and the counts add up to the number of other records |
| Defects.GetReworkData | app.js:1533-1573 | nothing without defect records; otherwise the welders in first-seen order, each with their distinct bottoms and how many of them were reworked |
| Defects.CountReworked | app.js:1561-1570 | per welder, the count of bottoms in the rework set and the number of bottoms |
| Defects.CountMembers | app.js:1563-1566 | counts the bottoms found in the marked set, at most all of them |
| Defects.ReworkCountBounded | app.js:1561-1570 | a welder's rework count is the size of their bottoms ∩ the rework bottoms, at most their bottom count |
| Defects.RuleOperators | app.js:1432-1447 | `!=` is the negation of `=`, `>` and `<` never hold together, and an unknown operator marks nothing |
| Defects.DefaultRuleExample | app.js:7 | under the default rule a wire total of 0 is defective and 5 is not; a blank wire cell counts as 0 ("" == 0), a missing one does not (undefined != 0) |
| Defects.RuleValue | app.js:1424-1429 | the rule value is a number exactly when the trimmed text contains '.' and is numeric, and then it is that number; otherwise it is the trimmed text |
| Welders.CutCoeff | app.js:131-139 | the cut coefficient is the table entry of the first letter, 1 by default, always in [1, 5] |
| Welders.MaterialCoeff | app.js:140-143 | 1.0 exactly when the wire names a carbon grade, else 1.2 |
| Welders.WeightBounds | app.js:145 | a non-negative length weighs between 1 and 6 times itself |
| Welders.AccumulatedTally | app.js:122-165 | the first loop's tally of a welder is their count, summed plain and weighted lengths, distinct bottoms and distinct dates |
| Welders.SummaryFigures | app.js:178-201 | average length, defect rate and length per shift are the stated quotients (0 with nothing to divide by); score is weighted length − 10 per defect |
| Welders.ComputeWeldersStats | app.js:107-204 | one entry per welder key in first-seen order, holding the figures of that welder's records |
| Welders.Summarize | app.js:178-201 | the second loop derives each welder's figures from their tally and defective-bottom count |
| Welders.WelderDefectCount | app.js:178-184 | a welder's total is their record count and their defect count is the number of their distinct bottoms marked defective |
| Welders.WelderTotalsAddUp | app.js:122-165 | over all welders, totals add up to the number of records and the lengths to the summed lengths |
| Welders.StatsBounds | app.js:178-192 | defect ≤ distinct bottoms ≤ total, dates ≤ total, and the defect rate lies in [0, 100] |
| Welders.NoDefectiveBottomNoPenalty | app.js:168-175 | without a defect sheet no bottom is defective and the score is the weighted length |
| Welders.WeightedTotalBounds | app.js:131-165 | for non-negative lengths, totalLength ≤ weightedTotal ≤ 6·totalLength |
| Welders.Entries | app.js:1216 | `Object.entries` pairs each welder with their figures, in key order |
| Welders.RankingIsTopTen | app.js:1216-1218 | at most ten entries, by non-increasing score, drawn from the input with no entry shown more often than it occurs; any entry left out scores no more than the last shown |
| Series.Ceil | app.js:1610 | Math.ceil: the least whole number not below its argument |
| Series.GroupByDate | app.js:1596-1627 | sorted distinct labels, one per bucket of a dated record; each bucket's values aggregated by sum, avg or count (none for another type) |
| Series.BucketsAreDatedKeys | app.js:1598-1602 | a label exists exactly when some dated record falls into that bucket |
| Series.SumsAddUp | app.js:1619-1620 | the "sum" values add up to the dated records' values |
| Series.CountsAddUp | app.js:1625-1626 | the "count" values add up to the number of dated records |
| Series.MeanTimesCount | app.js:1621-1624 | each "avg" value times its count is its sum |
| Series.MonthKeysChronological | app.js:1606-1608 | month keys of one year sort in calendar order |
| Series.PushedValues | app.js:1614-1615 | a bucket's pushed values are its records' parsed values in order |
| Series.PrepareWelderLines | app.js:1629-1673 | sorted periods; one line per distinct welder in first-seen order with its own colour; each point is the summed length of that welder's records in that period |
| Series.UndatedWelderIsFlat | app.js:1637-1641 | a welder without dated records draws a line of zeros |
| Series.AddedLengths | app.js:1648-1650 | the running `+=` of lengths is their sum |
| Series.Lines | app.js:1656-1664 | one dataset per welder, with that welder's colour and one point per period |
| Trends.PercentChangeMeaning | app.js:969-974 | 0 unless the base is positive; otherwise r·base = (new − base)·100, non-negative exactly when new ≥ base and zero exactly when equal |
| Trends.PercentBounds | app.js:1041-1044 | a part of a whole is between 0 and 100 percent of it |
| Trends.PerShiftMeaning | app.js:940 | length per shift times the shifts is the length; 0 without shifts |
| Trends.Totals | app.js:931-937 | the loop sums lengths and wire and collects the distinct dates |
| Trends.UpdateStats | app.js:924-1047 | the figures and trends of the overview, as OverviewOf states them |
| Trends.OverviewTotals | app.js:925-940 | total is the record count, the days at most that, and the per-shift length spread over the days gives back the total length (0 when there are no days) |
| Trends.HalvesSplit | app.js:956-958 | the first half is the first ⌊n/2⌋ records, the halves concatenate to the input, and the second is at most one longer |
| Trends.HalfLengthsAddUp | app.js:961-968 | the halves' lengths add up to the total length |
| Trends.SumValuesConcat | app.js:961-968 | a sum over a concatenation is the sum of the sums |
| Trends.TrendsGuarded | app.js:969-1004 | the length trend is 0 when the first half's length is not positive, the count trend when there is at most one record, and the average trend when the first half has no dates |
| Trends.CountTrendBySize | app.js:978-983 | the count trend is 100/⌊n/2⌋ for an odd n ≥ 3, and 0 otherwise |
| Trends.OneMoreRecord | app.js:978-983 | a half one record longer is up 100/h percent; equal halves give 0 |
| Trends.HalfDefectsBounded | app.js:1006-1040 | a half has at most as many defects as records |
| Trends.DefectTrendBounds | app.js:1041-1047 | the defect trend is a difference of percentage points, within [−100, 100] |
| Trends.RuleDefectRateBounded | app.js:949-953 | under the rule, defectCount ≤ total and the rate lies in [0, 100] |
| Trends.SheetDefectRateUnbounded | app.js:944-947 | with a defect sheet, one operation and two main-stage defect records give a rate of 200 % |
| Trends.NoMainDefectsNoTrend | app.js:944-1040 | without main-stage defect records, defect count, rate and trend are all 0 |
| Trends.PercentOfNone | app.js:1041-1044 | no part is 0 percent |
| Trends.MonthSums | app.js:1302-1307 | one month sum per label |
| Trends.MonthSumsAt | app.js:1302-1307 | the i-th month sum is the total of that month's lengths |
| Trends.UpdateTrends | app.js:1301-1336 | sorted month labels of the dated records; no trends with fewer than two months, else the trends of the month sums |
| Trends.MonthTrendMeaning | app.js:1318-1323 | the month trend compares the last month with the one before, 0 when that one is not positive |
| Trends.QuarterWindows | app.js:1327-1336 | the last three months and the up to three before them are adjacent windows; with three months or less the quarter trend is 0 |
| Trends.FourMonthsExample | app.js:1318-1336 | months of 100, 120, 90 and 150 m give a month trend of 200/3 % and a quarter trend of 20 % |
| Trends.FewMonthsNoTrend | app.js:1308-1316 | fewer than two months give no trends |
| Dashboard.KnownWelderMembers | app.js:617-623 | validWelders holds exactly the truthy welder names other than "Неизвестно" |
| Dashboard.FilteredShape | app.js:771-887 | both filters keep records in order, and a blank form keeps them all |
| Dashboard.Dashboard.constructor | app.js:4-16 | the state before loading: no records, the default rule, a display limit of 500 |
| Dashboard.Dashboard.Load | app.js:603-625 | a result without main records changes nothing; otherwise records and headers are replaced, nothing is filtered out, and the known welders are collected again |
| Dashboard.Dashboard.ApplyFilters | app.js:740-890 | a non-blank date failing the format check changes nothing; otherwise the main records are filtered by the form and the defect records by its dates, in order, and the display limit is reset |
| Dashboard.Dashboard.ResetFilters | app.js:892-908 | every loaded record is shown again and the display limit is reset |
| Dashboard.Dashboard.UpdateDefectRule | app.js:1421-1430 | the rule becomes the chosen field and operator with the value read from its text; the page state stays consistent, and the data and the applied filter form do not change |

## Left out

- Fetching the sheets (`loadDataFromCSV`) and the CSV library `Papa.parse` are not
  part of this model. The model starts from the rows the library hands over:
  `Parser.TypeRows` types them and `Dashboard.Dashboard.Load` takes the result.
- The DOM is not part of this model. This covers reading the filter form (ApplyFilters
  takes the field values as `Filters.ReadForm` produces them), the cards and tables,
  alerts, the info dialogs and `renderTable`. It also covers the display classes of
  `getTrendInfo`.
- The Chart.js wrappers, `updateDefectPie`, `updateDefectSummary` and
  `calculateColumnWidths` are left out. They are chart and layout preparation.
- Data-source configuration, `localStorage` and `exportToCSV` are left out. They are
  browser I/O.
- `toFixed`, `toLocaleString`, `formatNumber` and `formatPercent` are left out. The
  model keeps the unrounded values.
- `normalizeString` (Unicode NFD), `deepClone`/`deepMerge` (reflection over
  arbitrary objects) and `debugLog`/`measureTime` (console and timer) are left out.
- `window.safeParseFloat` and `window.isValidDateFormat` are not defined in the
  modelled files. They are passed in as functions.
- The HSL colour is kept as its three numbers. The CSS string built from them is not
  modelled.
- JavaScript `Date` rollover for out-of-range components is not modelled. Dates are
  compared as (year, month, day) triples.
- Records.Earlier: two-digit years are not mapped. `new Date(y, m - 1, d)`
  (app.js:46, app.js:777) reads a year from 0 to 99 as 1900 + y, but the model
  compares the year as written. A record dated "01.01.50" therefore counts as
  earlier than a bound of "01.01.1949". `compareDates` is modelled as a day-number
  difference, scaled to milliseconds, with no time zones.
- `Number()` and `parseFloat` are modelled on plain decimal text only. Exponents,
  hexadecimal and "Infinity" are not modelled.
- Numbers are exact reals, where JavaScript uses IEEE doubles. Rounding and the
  2^53 limit on exact integers are lost in the length sums (app.js:931-936, 1619),
  the weight product (app.js:145), the millimetre-to-metre division (parser.js:146)
  and the percentages.
- JsText.ToLower: only the single-step case shifts are folded. These are the
  capitals of ASCII, Latin-1 (U+00C0–U+00DE), Greek (U+0391–U+03A9) and Cyrillic
  (U+0400–U+042F). JavaScript's full Unicode case mapping is not modelled, so
  Latin Extended, final sigma and multi-character results are missing.
  JsText.UpperChar has the same limit.
- A Dafny `char` is a Unicode code point, while JavaScript strings are UTF-16 code
  units. The two differ only for characters outside the Basic Multilingual Plane.
  For those, lengths, slices and the default sort order are not modelled.
- `window.parser.getDefectData()` (app.js:37-39, 903-904) is not defined in the
  modelled files. The same goes for the shape of the result of `loadDataFromCSV`
  (app.js:610-616), since parser.js:73-112 returns nothing.
  `Dashboard.Dashboard.Load` takes the typed defect records as a parameter.
- Object-key enumeration puts integer-like keys first. The model keeps every key in
  insertion order.
- A non-text date cell is read as missing; JavaScript would throw on `.split`.
  The parser always types the date columns as text (`Parser.DateColumnsAreText`).
- Lengths are assumed to be numbers. A NaN from `safeParseFloat` is not
  propagated through the sums.
- Welders.RankingIsTopTen: does not state that equal scores keep their first-seen
  order. JavaScript's sort is stable; the insertion sort used here is not proved
  stable.
- Helpers.SortBy: keys are real numbers. `sortBy` on string or mixed-type keys is
  not modelled.
- Series.GroupByDate: an unknown period leaves the key `undefined`. The model gives
  every such record the bucket "undefined", which matches the object key JavaScript
  would use.

## Findings

| source | as written | input that shows it | evidently intended | confidence | as-written member | corrected member |
|---|---|---|---|---|---|---|
| parser.js:216 | `defectMap` joins order and bottom with "_" into one string, and `isDefective` looks that string up | an operation with order "12" and bottom "3_4" matches a defect with order "12_3" and bottom "4": both give "12_3_4" | a record is defective only when some defect record has the same trimmed order and the same trimmed bottom | low, not executed | Parser.DefectKeyCollision (on Parser.DefectStore.IsDefective) | Parser.DefectStore.IsDefectivePair, with Parser.PairMatchImpliesKeyMatch |
