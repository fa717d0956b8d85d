/** The filter engine of app.js: the row predicate of applyFilters over the
    main sheet, and the date-only filter of the defect sheet. */
module Filters {
  import opened JsText
  import opened Helpers
  import opened Parser
  import opened Records

  /** The eight fields of the filter form, as typed. */
  datatype FilterForm = FilterForm(
    dateFrom: string, dateTo: string,
    order: string, bottom: string, welder: string,
    diameter: string, thickness: string, cutting: string)

  /** Text with no whitespace at either end. */
  predicate IsTrimmed(s: string) {
    Trim(s) == s
  }

  /** Text that lower-casing leaves as it is. */
  predicate IsLowered(s: string) {
    ToLower(s) == s
  }

  /** A field as applyFilters reads it, `value.trim()`: trimmed text that
      is empty exactly when the field is blank or only whitespace. */
  function ReadText(s: string): (r: string)
    ensures IsTrimmed(r)
    ensures r == "" <==> IsEmpty(s)
  {
    TrimTwice(s);
    Trim(s)
  }

  /** A field searched by substring, `value.trim().toLowerCase()`: trimmed,
      lower-case text that is empty exactly when the field is blank. */
  function ReadSearch(s: string): (r: string)
    ensures IsTrimmed(r) && IsLowered(r)
    ensures r == "" <==> IsEmpty(s)
  {
    TrimTwice(s);
    TrimOfLower(Trim(s));
    ToLowerIdempotent(Trim(s));
    ToLower(Trim(s))
  }

  /** The form as applyFilters reads it: every field trimmed, and the order,
      bottom, welder and cutting fields lower-cased. A field left blank or
      holding only whitespace reads as "" (that filter is off), and any other
      reads as non-empty text; each read field is trimmed, and the four
      searched by substring are lower case. */
  function ReadForm(f: FilterForm): (q: FilterForm)
    ensures q.dateFrom == "" <==> IsEmpty(f.dateFrom)
    ensures q.dateTo == "" <==> IsEmpty(f.dateTo)
    ensures q.order == "" <==> IsEmpty(f.order)
    ensures q.bottom == "" <==> IsEmpty(f.bottom)
    ensures q.welder == "" <==> IsEmpty(f.welder)
    ensures q.diameter == "" <==> IsEmpty(f.diameter)
    ensures q.thickness == "" <==> IsEmpty(f.thickness)
    ensures q.cutting == "" <==> IsEmpty(f.cutting)
    ensures IsTrimmed(q.dateFrom) && IsTrimmed(q.dateTo) && IsTrimmed(q.diameter) && IsTrimmed(q.thickness)
    ensures IsTrimmed(q.order) && IsTrimmed(q.bottom) && IsTrimmed(q.welder) && IsTrimmed(q.cutting)
    ensures IsLowered(q.order) && IsLowered(q.bottom) && IsLowered(q.welder) && IsLowered(q.cutting)
  {
    FilterForm(
      ReadText(f.dateFrom), ReadText(f.dateTo),
      ReadSearch(f.order), ReadSearch(f.bottom), ReadSearch(f.welder),
      ReadText(f.diameter), ReadText(f.thickness), ReadSearch(f.cutting))
  }

  /** Reading a form that has already been read changes nothing. */
  lemma ReadFormIdempotent(f: FilterForm)
    ensures ReadForm(ReadForm(f)) == ReadForm(f)
  {
  }

  /** applyFilters goes ahead only when each non-empty date field passes
      window.isValidDateFormat (not part of this model; passed in). */
  predicate FormAccepted(q: FilterForm, validFormat: string -> bool) {
    (q.dateFrom == "" || validFormat(q.dateFrom)) && (q.dateTo == "" || validFormat(q.dateTo))
  }

  // ======================================================== the predicate

  /** The date test of the main filter: with either bound set, a record
      needs a date that splits into three truthy numbers and lies within
      the bounds. */
  predicate MatchesDates(row: Row, from: string, to: string) {
    if from == "" && to == "" then true
    else
      var text := TextAt(row, DateColumn);
      if text.None? then false
      else
        var d := DateParts(text.value);
        d.Some? && WithinBounds(d.value, Bound(from), Bound(to))
  }

  const FilterOrderAliases: seq<string> := ["Заказ", "№Заказа", "Номер заказа"]
  const FilterBottomAliases: seq<string> := ["№Днища", "№ Днища", "Номер днища"]
  const FilterWelderAliases: seq<string> := ["Сварщик", "ФИО", "ФИО сварщика"]

  /** `(row[a0] || row[a1] || ... || "").toString().toLowerCase().includes(want)`,
      for a non-empty `want`. */
  predicate MatchesText(row: Row, aliases: seq<string>, want: string) {
    want == "" || Contains(ToLower(CellText(FirstTruthy(row, aliases))), want)
  }

  /** The diameter and thickness test: a missing or empty field fails; a
      number must equal the parsed filter; text matches by number when both
      sides parse, and otherwise by case-insensitive substring. */
  predicate MatchesMeasure(cell: Option<Cell>, want: string) {
    if want == "" then true
    else
      match cell
      case None => false
      case Some(Num(n)) => ParseFloat(want) == Some(n)
      case Some(NaN) => false
      case Some(Str(s)) =>
        if s == "" then false
        else
          var rowNum, wantNum := ParseFloat(s), ParseFloat(want);
          if rowNum.Some? && wantNum.Some? then rowNum.value == wantNum.value
          else Contains(ToLower(s), ToLower(want))
  }

  /** The row predicate of applyFilters, for a form read by ReadForm. */
  predicate MatchesFilters(row: Row, q: FilterForm) {
    && MatchesDates(row, q.dateFrom, q.dateTo)
    && MatchesText(row, FilterOrderAliases, q.order)
    && MatchesText(row, FilterBottomAliases, q.bottom)
    && MatchesText(row, FilterWelderAliases, q.welder)
    && MatchesMeasure(Get(row, DiameterColumn), q.diameter)
    && MatchesMeasure(Get(row, ThicknessColumn), q.thickness)
    && MatchesText(row, [CuttingColumn], q.cutting)
  }

  function Matcher(q: FilterForm): Row -> bool {
    row => MatchesFilters(row, q)
  }

  /** `allData.filter(...)` */
  function FilterMain(allData: seq<Row>, q: FilterForm): seq<Row> {
    Select(allData, Matcher(q))
  }

  // ================================================ the defect-date filter

  /** The row predicate of filterDefectData: a record without a date that
      splits into three truthy numbers is kept; a dated one must lie within
      the bounds whose (trimmed) text is not blank. */
  predicate KeepDefect(row: Row, from: string, to: string) {
    var text := TextAt(row, DefectDateColumn);
    if text.None? then true
    else
      var d := DateParts(text.value);
      d.None? || WithinBounds(d.value, Bound(Trim(from)), Bound(Trim(to)))
  }

  function DefectKeeper(from: string, to: string): Row -> bool {
    row => KeepDefect(row, from, to)
  }

  /** filterDefectData(dateFrom, dateTo) over the loaded defect records. */
  function FilterDefectData(defects: seq<Row>, from: string, to: string): seq<Row> {
    if defects == [] then [] else Select(defects, DefectKeeper(from, to))
  }

  // ============================================================ properties

  /** The filtered main data is an order-preserving subsequence of all
      records, holding exactly the records that pass the predicate. */
  lemma FilterMainIsSubsequence(allData: seq<Row>, q: FilterForm)
    ensures IsSubsequence(FilterMain(allData, q), allData)
    ensures forall row :: row in FilterMain(allData, q) <==> row in allData && MatchesFilters(row, q)
  {
    SelectIsSubsequence(allData, Matcher(q));
    forall row | row in allData && MatchesFilters(row, q) ensures row in FilterMain(allData, q) {
      var i :| 0 <= i < |allData| && allData[i] == row;
    }
  }

  /** A form whose every field is blank or only whitespace keeps every
      record, in order. */
  lemma EmptyFormKeepsAll(allData: seq<Row>, f: FilterForm)
    requires IsEmpty(f.dateFrom) && IsEmpty(f.dateTo) && IsEmpty(f.order) && IsEmpty(f.bottom)
    requires IsEmpty(f.welder) && IsEmpty(f.diameter) && IsEmpty(f.thickness) && IsEmpty(f.cutting)
    ensures FilterMain(allData, ReadForm(f)) == allData
  {
    var q := ReadForm(f);
    assert q == FilterForm("", "", "", "", "", "", "", "");
    SelectAll(allData, Matcher(q));
  }

  /** With a date bound set, a record without a date, or with one that does
      not split into three truthy numbers, is filtered out. */
  lemma UndatedExcludedWhenBounded(row: Row, q: FilterForm)
    requires q.dateFrom != "" || q.dateTo != ""
    requires TextAt(row, DateColumn).None? || DateParts(TextAt(row, DateColumn).value).None?
    ensures !MatchesFilters(row, q)
  {
  }

  /** Both bounds are inclusive: a dated record passes the date test exactly
      when its date is neither before the start nor after the end. */
  lemma DateBoundsInclusive(row: Row, from: string, to: string, d: DayMonthYear, f: DayMonthYear, t: DayMonthYear)
    requires TextAt(row, DateColumn).Some? && DateParts(TextAt(row, DateColumn).value) == Some(d)
    requires from != "" && DateParts(from) == Some(f)
    requires to != "" && DateParts(to) == Some(t)
    ensures MatchesDates(row, from, to) <==> !Earlier(d, f) && !Earlier(t, d)
    ensures d == f || d == t ==> (MatchesDates(row, from, to) <==> !Earlier(t, f))
  {
  }

  /** A measure filter rejects a record that lacks the field, and a record
      holding a number matches exactly when the filter parses to it. */
  lemma MeasureMissingExcluded(row: Row, q: FilterForm)
    requires q.diameter != "" && (DiameterColumn !in row || row[DiameterColumn] == Str(""))
    ensures !MatchesFilters(row, q)
  {
  }

  /** When both the record's text and the filter parse as numbers, they must
      be equal; otherwise the filter must occur in the text, ignoring case. */
  lemma MeasureTextMatch(s: string, want: string)
    requires s != "" && want != ""
    ensures ParseFloat(s).Some? && ParseFloat(want).Some? ==>
      (MatchesMeasure(Some(Str(s)), want) <==> ParseFloat(s) == ParseFloat(want))
    ensures ParseFloat(s).None? || ParseFloat(want).None? ==>
      (MatchesMeasure(Some(Str(s)), want) <==> Contains(ToLower(s), ToLower(want)))
  {
  }

  /** The defect filter keeps a record without a usable date, which the
      main filter drops as soon as a bound is set. */
  lemma DefectFilterKeepsUndated(defects: seq<Row>, from: string, to: string, i: nat)
    requires i < |defects|
    requires TextAt(defects[i], DefectDateColumn).None? || DateParts(TextAt(defects[i], DefectDateColumn).value).None?
    ensures defects[i] in FilterDefectData(defects, from, to)
  {
  }

  /** The defect filter is an order-preserving subsequence too, and blank
      bounds keep every record. */
  lemma FilterDefectDataShape(defects: seq<Row>, from: string, to: string)
    ensures IsSubsequence(FilterDefectData(defects, from, to), defects)
    ensures Trim(from) == "" && Trim(to) == "" ==> FilterDefectData(defects, from, to) == defects
  {
    if defects != [] {
      SelectIsSubsequence(defects, DefectKeeper(from, to));
      if Trim(from) == "" && Trim(to) == "" {
        SelectAll(defects, DefectKeeper(from, to));
      }
    }
  }
}
