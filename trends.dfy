/** The summary cards of app.js: updateStats (totals over the filtered
    records, and trends that compare the first half of the records with the
    second) and the numeric part of updateTrends (month-on-month and
    quarter-on-quarter change of the welded length). */
module Trends {
  import opened JsText
  import opened Helpers
  import opened Parser
  import opened Records
  import opened Defects
  import opened Welders
  import opened Series

  // ====================================================== shared arithmetic

  /** `prev > 0 ? ((cur - prev) / prev) * 100 : 0` */
  function PercentChange(prev: real, cur: real): real {
    if prev > 0.0 then (cur - prev) / prev * 100.0 else 0.0
  }

  /** `whole ? (part / whole) * 100 : 0` */
  function Percent(part: nat, whole: nat): real {
    if whole > 0 then part as real / whole as real * 100.0 else 0.0
  }

  /** `days > 0 ? length / days : 0` */
  function PerShift(length: real, days: nat): real {
    if days > 0 then length / days as real else 0.0
  }

  /** The change is relative to the earlier figure, and counts only when
      that figure is positive; its sign says whether the figure grew. */
  lemma PercentChangeMeaning(prev: real, cur: real)
    ensures prev <= 0.0 ==> PercentChange(prev, cur) == 0.0
    ensures prev > 0.0 ==> PercentChange(prev, cur) * prev == (cur - prev) * 100.0
    ensures prev > 0.0 ==> (PercentChange(prev, cur) >= 0.0 <==> cur >= prev)
    ensures prev > 0.0 ==> (PercentChange(prev, cur) == 0.0 <==> cur == prev)
  {
    if prev > 0.0 {
      var q := (cur - prev) / prev;
      assert q * prev == cur - prev;
      assert q >= 0.0 <==> cur >= prev by {
        if q < 0.0 { assert q * prev < 0.0; }
        if cur < prev { assert q * prev < 0.0; }
      }
    }
  }

  /** A share of at most the whole is a percentage between 0 and 100. */
  lemma PercentBounds(part: nat, whole: nat)
    requires part <= whole
    ensures 0.0 <= Percent(part, whole) <= 100.0
    ensures whole > 0 ==> Percent(part, whole) * whole as real == part as real * 100.0
  {
    if whole > 0 {
      var q := part as real / whole as real;
      assert q * whole as real == part as real;
      assert q <= 1.0 by {
        if q > 1.0 { assert q * whole as real > whole as real; }
      }
    }
  }

  // ============================================================ the halves

  /** `filteredData.slice(0, Math.floor(filteredData.length / 2))` */
  function FirstHalf(rows: seq<Row>): seq<Row> {
    rows[..|rows| / 2]
  }

  /** `filteredData.slice(Math.floor(filteredData.length / 2))` */
  function SecondHalf(rows: seq<Row>): seq<Row> {
    rows[|rows| / 2..]
  }

  /** The halves cover the records in order; the second is the larger one
      by at most a record. */
  lemma HalvesSplit(rows: seq<Row>)
    ensures FirstHalf(rows) + SecondHalf(rows) == rows
    ensures |FirstHalf(rows)| == |rows| / 2
    ensures |FirstHalf(rows)| <= |SecondHalf(rows)| <= |FirstHalf(rows)| + 1
    ensures |SecondHalf(rows)| - |FirstHalf(rows)| == |rows| % 2
  {
  }

  /** `rows.filter(r => evaluateDefect(r, defectRule))` */
  function RuleHolds(rule: DefectRule, spf: ParseFloatFn): Row -> bool {
    row => EvaluateDefect(row, rule, spf)
  }

  function RuleMarked(rows: seq<Row>, rule: DefectRule, spf: ParseFloatFn): seq<Row> {
    Select(rows, RuleHolds(rule, spf))
  }

  /** The defects of one half: with a defect sheet, the half's distinct
      bottoms that a main-stage defect record names; without one, the
      half's records that the rule marks. */
  function HalfDefects(half: seq<Row>, filteredDefects: seq<Row>, hasDefects: bool,
                       rule: DefectRule, spf: ParseFloatFn): nat
  {
    if hasDefects then CountIn(BottomSet(half), DefectiveBottoms(filteredDefects, true))
    else |RuleMarked(half, rule, spf)|
  }

  // ========================================================== updateStats

  /** The figures updateStats shows, before `toFixed` rounds them. */
  datatype Overview = Overview(
    total: nat, totalLength: real, totalWire: real, days: nat, avgPerShift: real,
    defectCount: nat, defectPct: real,
    lengthTrend: real, countTrend: real, avgTrend: real, defectTrend: real)

  /** What updateStats computes from the filtered records. */
  function OverviewOf(filtered: seq<Row>, filteredDefects: seq<Row>, hasDefects: bool,
                      rule: DefectRule, spf: ParseFloatFn): Overview
  {
    var total := |filtered|;
    var totalLength := SumValues(filtered, LengthFn(spf));
    var days := |TruthySet(filtered, DateAt)|;
    var defectCount := if hasDefects then |MainDefectData(filteredDefects)| else |RuleMarked(filtered, rule, spf)|;
    var first, second := FirstHalf(filtered), SecondHalf(filtered);
    var firstLength, secondLength := SumValues(first, LengthFn(spf)), SumValues(second, LengthFn(spf));
    var firstAvg := PerShift(firstLength, |TruthySet(first, DateAt)|);
    var secondAvg := PerShift(secondLength, |TruthySet(second, DateAt)|);
    var firstPct := Percent(HalfDefects(first, filteredDefects, hasDefects, rule, spf), |first|);
    var secondPct := Percent(HalfDefects(second, filteredDefects, hasDefects, rule, spf), |second|);
    Overview(
      total, totalLength, SumValues(filtered, NumberAt(spf, WireColumn)), days, PerShift(totalLength, days),
      defectCount, Percent(defectCount, total),
      PercentChange(firstLength, secondLength),
      PercentChange(|first| as real, |second| as real),
      PercentChange(firstAvg, secondAvg),
      secondPct - firstPct)
  }

  /** The first loop of updateStats: welded length, wire and distinct
      shift dates of the filtered records. */
  method Totals(rows: seq<Row>, spf: ParseFloatFn) returns (length: real, wire: real, dates: seq<Cell>)
    ensures length == SumValues(rows, LengthFn(spf))
    ensures wire == SumValues(rows, NumberAt(spf, WireColumn))
    ensures dates == TruthySet(rows, DateAt)
  {
    length, wire, dates := 0.0, 0.0, [];
    var i := 0;
    while i < |rows|
      invariant 0 <= i <= |rows|
      invariant length == SumValues(rows[..i], LengthFn(spf))
      invariant wire == SumValues(rows[..i], NumberAt(spf, WireColumn))
      invariant dates == TruthySet(rows[..i], DateAt)
    {
      assert rows[..i + 1][..i] == rows[..i];
      TruthySetPrefix(rows, DateAt, i);
      length := length + spf(Get(rows[i], LengthColumn));
      wire := wire + spf(Get(rows[i], WireColumn));
      dates := AddTruthy(dates, DateAt(rows[i]));
      i := i + 1;
    }
    assert rows[..i] == rows;
  }

  /** updateStats: the totals loop, the overall defect count, then the
      figures of each half and the trends between them. */
  method UpdateStats(filtered: seq<Row>, filteredDefects: seq<Row>, hasDefects: bool,
                     rule: DefectRule, spf: ParseFloatFn) returns (o: Overview)
    ensures o == OverviewOf(filtered, filteredDefects, hasDefects, rule, spf)
  {
    var totalLength, totalWire, dates := Totals(filtered, spf);
    var total := |filtered|;
    var defectCount := if hasDefects then |MainDefectData(filteredDefects)| else |RuleMarked(filtered, rule, spf)|;
    var midPoint := total / 2;
    var first, second := filtered[..midPoint], filtered[midPoint..];
    var firstLength, secondLength := SumValues(first, LengthFn(spf)), SumValues(second, LengthFn(spf));
    var firstDates := CollectTruthy(first, DateAt);
    var secondDates := CollectTruthy(second, DateAt);
    var firstDefect, secondDefect;
    if hasDefects {
      var defective := CollectTruthy(MainDefectData(filteredDefects), BottomAt);
      var firstBottoms := CollectTruthy(first, BottomAt);
      var secondBottoms := CollectTruthy(second, BottomAt);
      firstDefect := CountMembers(firstBottoms, defective);
      secondDefect := CountMembers(secondBottoms, defective);
    } else {
      firstDefect := |RuleMarked(first, rule, spf)|;
      secondDefect := |RuleMarked(second, rule, spf)|;
    }
    o := Overview(
      total, totalLength, totalWire, |dates|, PerShift(totalLength, |dates|),
      defectCount, Percent(defectCount, total),
      PercentChange(firstLength, secondLength),
      PercentChange(|first| as real, |second| as real),
      PercentChange(PerShift(firstLength, |firstDates|), PerShift(secondLength, |secondDates|)),
      Percent(secondDefect, |second|) - Percent(firstDefect, |first|));
  }

  // ============================================================ properties

  /** The totals: one operation per record, no more shift dates than
      records, and the average per shift spreads the welded length evenly
      over those dates (0 when there are none). */
  lemma OverviewTotals(filtered: seq<Row>, filteredDefects: seq<Row>, hasDefects: bool,
                       rule: DefectRule, spf: ParseFloatFn)
    ensures var o := OverviewOf(filtered, filteredDefects, hasDefects, rule, spf);
      && o.total == |filtered|
      && o.days <= o.total
      && SpreadEvenly(o.avgPerShift, o.totalLength, o.days)
  {
    var o := OverviewOf(filtered, filteredDefects, hasDefects, rule, spf);
    PerShiftSpreads(o.totalLength, o.days);
  }

  /** `avg` spreads `length` evenly over `days` shifts (0 when there are none). */
  predicate SpreadEvenly(avg: real, length: real, days: nat) {
    && (days > 0 ==> avg * days as real == length)
    && (days == 0 ==> avg == 0.0)
  }

  /** PerShiftMeaning, as SpreadEvenly. */
  lemma PerShiftSpreads(length: real, days: nat)
    ensures SpreadEvenly(PerShift(length, days), length, days)
  {
    PerShiftMeaning(length, days);
  }

  /** The average per shift spreads the length evenly over the shifts. */
  lemma PerShiftMeaning(length: real, days: nat)
    ensures days > 0 ==> PerShift(length, days) * days as real == length
    ensures days == 0 ==> PerShift(length, days) == 0.0
  {
  }

  /** The welded lengths of the halves add up to the total. */
  lemma HalfLengthsAddUp(filtered: seq<Row>, spf: ParseFloatFn)
    ensures SumValues(FirstHalf(filtered), LengthFn(spf)) + SumValues(SecondHalf(filtered), LengthFn(spf))
      == SumValues(filtered, LengthFn(spf))
  {
    HalvesSplit(filtered);
    SumValuesConcat(FirstHalf(filtered), SecondHalf(filtered), LengthFn(spf));
  }

  lemma {:induction false} SumValuesConcat<T>(a: seq<T>, b: seq<T>, val: T -> real)
    ensures SumValues(a + b, val) == SumValues(a, val) + SumValues(b, val)
  {
    if b == [] {
      assert a + b == a;
    } else {
      var init := b[..|b| - 1];
      SumValuesConcat(a, init, val);
      assert (a + b)[..|a + b| - 1] == a + init;
      assert (a + b)[|a + b| - 1] == b[|b| - 1];
      assert SumValues(a + b, val) == SumValues(a + init, val) + val(b[|b| - 1]);
      assert SumValues(b, val) == SumValues(init, val) + val(b[|b| - 1]);
    }
  }

  /** A trend is 0 whenever the first half's figure is not positive: a
      first half without welded length, without records, or without dated
      records. */
  lemma TrendsGuarded(filtered: seq<Row>, filteredDefects: seq<Row>, hasDefects: bool,
                      rule: DefectRule, spf: ParseFloatFn)
    ensures var o := OverviewOf(filtered, filteredDefects, hasDefects, rule, spf);
      && (SumValues(FirstHalf(filtered), LengthFn(spf)) <= 0.0 ==> o.lengthTrend == 0.0)
      && (|filtered| <= 1 ==> o.countTrend == 0.0)
      && (TruthySet(FirstHalf(filtered), DateAt) == [] ==> o.avgTrend == 0.0)
  {
  }

  /** The count trend depends on the number of records alone: the halves
      differ by at most one record, so it is 0 for an even count and
      100 / ⌊n/2⌋ per cent for an odd count of at least 3. */
  lemma CountTrendBySize(filtered: seq<Row>, filteredDefects: seq<Row>, hasDefects: bool,
                         rule: DefectRule, spf: ParseFloatFn)
    ensures var o := OverviewOf(filtered, filteredDefects, hasDefects, rule, spf);
      o.countTrend == if |filtered| >= 3 && |filtered| % 2 == 1 then 100.0 / (|filtered| / 2) as real else 0.0
  {
    HalvesSplit(filtered);
    var h := |filtered| / 2;
    if |filtered| % 2 == 1 {
      assert |SecondHalf(filtered)| == h + 1;
      OneMoreRecord(h);
    } else {
      assert |SecondHalf(filtered)| == h;
    }
  }

  /** Halves of h and h + 1 records, or of h records each. */
  lemma OneMoreRecord(h: nat)
    ensures PercentChange(h as real, (h + 1) as real) == if h > 0 then 100.0 / h as real else 0.0
    ensures PercentChange(h as real, h as real) == 0.0
  {
  }

  /** A half never counts more defects than it has records. */
  lemma HalfDefectsBounded(half: seq<Row>, filteredDefects: seq<Row>, hasDefects: bool,
                           rule: DefectRule, spf: ParseFloatFn)
    ensures HalfDefects(half, filteredDefects, hasDefects, rule, spf) <= |half|
  {
  }

  /** The defect trend is a difference of two percentages (in percentage
      points), not a ratio: it lies between -100 and 100. */
  lemma DefectTrendBounds(filtered: seq<Row>, filteredDefects: seq<Row>, hasDefects: bool,
                          rule: DefectRule, spf: ParseFloatFn)
    ensures var o := OverviewOf(filtered, filteredDefects, hasDefects, rule, spf);
      -100.0 <= o.defectTrend <= 100.0
  {
    var first, second := FirstHalf(filtered), SecondHalf(filtered);
    HalfDefectsBounded(first, filteredDefects, hasDefects, rule, spf);
    HalfDefectsBounded(second, filteredDefects, hasDefects, rule, spf);
    PercentBounds(HalfDefects(first, filteredDefects, hasDefects, rule, spf), |first|);
    PercentBounds(HalfDefects(second, filteredDefects, hasDefects, rule, spf), |second|);
  }

  /** Without a defect sheet the overall defect rate is the share of
      records the rule marks, so it lies between 0 and 100. */
  lemma RuleDefectRateBounded(filtered: seq<Row>, filteredDefects: seq<Row>,
                              rule: DefectRule, spf: ParseFloatFn)
    ensures var o := OverviewOf(filtered, filteredDefects, false, rule, spf);
      && o.defectCount <= o.total
      && 0.0 <= o.defectPct <= 100.0
  {
    PercentBounds(|RuleMarked(filtered, rule, spf)|, |filtered|);
  }

  /** With a defect sheet the overall rate divides the number of main-stage
      defect records by the number of operations, two counts taken from
      different sheets: one operation and two defect records on it give
      200 per cent. */
  lemma SheetDefectRateUnbounded(rule: DefectRule, spf: ParseFloatFn)
    ensures var op: Row := map[];
      var d := map[StageColumn := Str(MainStage)];
      OverviewOf([op], [d, d], true, rule, spf).defectPct == 200.0
  {
    var d := map[StageColumn := Str(MainStage)];
    assert IsMainDefect(d);
    assert Select([d], IsMainDefect) == [d];
    assert [d, d][..1] == [d];
    assert MainDefectData([d, d]) == [d, d];
  }

  /** A defect sheet without main-stage records leaves every defect figure
      at 0. */
  lemma NoMainDefectsNoTrend(filtered: seq<Row>, filteredDefects: seq<Row>, rule: DefectRule, spf: ParseFloatFn)
    requires forall i :: 0 <= i < |filteredDefects| ==> !IsMainDefect(filteredDefects[i])
    ensures var o := OverviewOf(filtered, filteredDefects, true, rule, spf);
      o.defectCount == 0 && o.defectPct == 0.0 && o.defectTrend == 0.0
  {
    if filteredDefects != [] {
      SelectNone(filteredDefects, IsMainDefect);
    }
    assert DefectiveBottoms(filteredDefects, true) == [] by {
      assert MainDefectData(filteredDefects) == [];
    }
    var first, second := FirstHalf(filtered), SecondHalf(filtered);
    NothingCountedInEmpty(BottomSet(first));
    NothingCountedInEmpty(BottomSet(second));
    assert HalfDefects(first, filteredDefects, true, rule, spf) == 0;
    assert HalfDefects(second, filteredDefects, true, rule, spf) == 0;
    PercentOfNone(|filtered|);
    PercentOfNone(|first|);
    PercentOfNone(|second|);
  }

  lemma PercentOfNone(whole: nat)
    ensures Percent(0, whole) == 0.0
  {
  }


  // ========================================================= updateTrends

  /** The month and quarter figures of updateTrends. */
  datatype MonthTrends = MonthTrends(
    current: real, previous: real, monthTrend: real,
    avg3: real, avgPrev3: real, quarterTrend: real)

  function ClampAtZero(x: int): nat {
    if x < 0 then 0 else x
  }

  /** `values.slice(-3)` */
  function Last3(values: seq<real>): seq<real> {
    values[ClampAtZero(|values| - 3)..]
  }

  /** `values.slice(-6, -3)` */
  function Prev3(values: seq<real>): seq<real> {
    values[ClampAtZero(|values| - 6)..ClampAtZero(|values| - 3)]
  }

  /** The mean, or 0 for no values. */
  function Mean(values: seq<real>): real {
    if values == [] then 0.0 else Total(values) / |values| as real
  }

  /** The trends over the month sums, oldest month first; none for fewer
      than two months. */
  function MonthTrendsOf(values: seq<real>): Option<MonthTrends> {
    if |values| < 2 then None
    else
      var current, previous := values[|values| - 1], values[|values| - 2];
      var avg3, avgPrev3 := Mean(Last3(values)), Mean(Prev3(values));
      Some(MonthTrends(current, previous, PercentChange(previous, current),
                       avg3, avgPrev3, PercentChange(avgPrev3, avg3)))
  }

  /** The welded length of each month of `labels`. */
  function MonthSums(filtered: seq<Row>, labels: seq<string>, spf: ParseFloatFn): (sums: seq<real>)
    ensures |sums| == |labels|
  {
    if labels == [] then []
    else
      MonthSums(filtered, labels[..|labels| - 1], spf)
      + [Total(BucketValues(filtered, LengthColumn, "month", spf, labels[|labels| - 1]))]
  }

  lemma {:induction false} MonthSumsAt(filtered: seq<Row>, labels: seq<string>, spf: ParseFloatFn, i: nat)
    requires i < |labels|
    ensures MonthSums(filtered, labels, spf)[i] == Total(BucketValues(filtered, LengthColumn, "month", spf, labels[i]))
  {
    if i < |labels| - 1 {
      MonthSumsAt(filtered, labels[..|labels| - 1], spf, i);
    }
  }

  /** updateTrends: the month sums of the welded length, then the trends
      over them. */
  method UpdateTrends(filtered: seq<Row>, spf: ParseFloatFn)
    returns (labels: seq<string>, trends: Option<MonthTrends>)
    ensures StrictlySorted(labels)
    ensures forall k :: k in labels <==> k in KeysOf(Select(filtered, Dated), Bucket("month"))
    ensures trends == MonthTrendsOf(MonthSums(filtered, labels, spf))
    ensures trends.None? <==> |labels| < 2
  {
    var values;
    labels, values := GroupByDate(filtered, LengthColumn, "month", "sum", spf);
    assert "sum" in AggregateTypes;
    var sums := values.value;
    assert sums == MonthSums(filtered, labels, spf) by {
      forall i | 0 <= i < |labels|
        ensures sums[i] == MonthSums(filtered, labels, spf)[i]
      {
        MonthSumsAt(filtered, labels, spf, i);
      }
    }
    trends := MonthTrendsOf(sums);
  }

  /** The month trend compares the last month with the one before it. */
  lemma MonthTrendMeaning(values: seq<real>)
    requires |values| >= 2
    ensures var t := MonthTrendsOf(values).value;
      && t.current == values[|values| - 1] && t.previous == values[|values| - 2]
      && (t.previous <= 0.0 ==> t.monthTrend == 0.0)
      && (t.previous > 0.0 ==> t.monthTrend * t.previous == (t.current - t.previous) * 100.0)
  {
    PercentChangeMeaning(values[|values| - 2], values[|values| - 1]);
  }

  /** The windows of the quarter trend: the last three months (fewer when
      there are fewer), and the three before them, which overlap nothing
      and are empty with three months or less, so the quarter trend is 0. */
  lemma QuarterWindows(values: seq<real>)
    requires |values| >= 2
    ensures |Last3(values)| == if |values| < 3 then |values| else 3
    ensures Prev3(values) + Last3(values) == values[ClampAtZero(|values| - 6)..]
    ensures |values| <= 3 ==> Prev3(values) == [] && MonthTrendsOf(values).value.quarterTrend == 0.0
    ensures |values| >= 6 ==> |Prev3(values)| == 3
    ensures MonthTrendsOf(values).value.avg3 * |Last3(values)| as real == Total(Last3(values))
  {
    var last := Last3(values);
    assert Total(last) / |last| as real * |last| as real == Total(last);
  }

  /** Four months welding 100, 120, 90 and 150 m: the last month is up by
      two thirds on the one before, and the last three months (120 m on
      average) are up 20 % on the single month before them. */
  lemma FourMonthsExample()
    ensures var t := MonthTrendsOf([100.0, 120.0, 90.0, 150.0]).value;
      && t.current == 150.0 && t.previous == 90.0 && t.monthTrend == 200.0 / 3.0
      && t.avg3 == 120.0 && t.avgPrev3 == 100.0 && t.quarterTrend == 20.0
  {
    var values := [100.0, 120.0, 90.0, 150.0];
    assert Last3(values) == [120.0, 90.0, 150.0];
    assert Prev3(values) == [100.0];
    assert Total([150.0]) == 150.0;
    assert Total([90.0, 150.0]) == 240.0;
    assert Total([120.0, 90.0, 150.0]) == 360.0;
    assert Total([100.0]) == 100.0;
  }

  /** Fewer than two months of dated records give no trends. */
  lemma FewMonthsNoTrend(values: seq<real>)
    ensures MonthTrendsOf(values).None? <==> |values| < 2
  {
  }
}
