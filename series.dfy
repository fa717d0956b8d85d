/** The time series of app.js: groupByDate, which buckets records by day,
    month, quarter or year and aggregates one column per bucket, and
    prepareWelderLines, which sums the seam length per welder and per month
    or quarter. */
module Series {
  import opened JsText
  import opened Helpers
  import opened Parser
  import opened Records

  // ========================================================= period keys

  /** Math.ceil */
  function Ceil(x: real): (c: int)
    ensures x <= c as real < x + 1.0
  {
    -((-x).Floor)
  }

  /** The bucket of a date: `${year}-MM-DD`, `${year}-MM`, `${year}-Q${q}`
      or `${year}`, with the month and day padded to two characters.  For
      any other period the key stays undefined, and the bucket is the
      object key "undefined". */
  function PeriodKey(d: DayMonthYear, period: string): string {
    if period == "day" then
      NumberText(d.year) + "-" + PadStart2(NumberText(d.month)) + "-" + PadStart2(NumberText(d.day))
    else if period == "month" then NumberText(d.year) + "-" + PadStart2(NumberText(d.month))
    else if period == "quarter" then NumberText(d.year) + "-Q" + NumberText(Ceil(d.month / 3.0) as real)
    else if period == "year" then NumberText(d.year)
    else "undefined"
  }

  /** The date of a record, when `row["Дата"]` splits into three truthy
      numbers; the loops skip every other record. */
  function DateOf(row: Row): Option<DayMonthYear> {
    var text := TextAt(row, DateColumn);
    if text.None? then None else DateParts(text.value)
  }

  predicate Dated(row: Row) {
    DateOf(row).Some?
  }

  /** The bucket of a dated record (undated records are never keyed). */
  function BucketOf(row: Row, period: string): string {
    match DateOf(row)
    case Some(d) => PeriodKey(d, period)
    case None => ""
  }

  function Bucket(period: string): Row -> string {
    row => BucketOf(row, period)
  }

  // ======================================================== groupByDate

  /** `groups[key].push(safeParseFloat(row[valueField]))` */
  function PushValue(values: seq<real>, row: Row, spf: ParseFloatFn, valueField: string): seq<real> {
    values + [spf(Get(row, valueField))]
  }

  function Pusher(spf: ParseFloatFn, valueField: string): (seq<real>, Row) -> seq<real> {
    (values, row) => PushValue(values, row, spf, valueField)
  }

  /** Pushing the value of each record in turn lists the values in record
      order. */
  lemma {:induction false} PushedValues(rows: seq<Row>, spf: ParseFloatFn, valueField: string)
    ensures FoldL(rows, [], Pusher(spf, valueField)) == MapKeys(rows, NumberAt(spf, valueField))
  {
    if rows != [] {
      PushedValues(rows[..|rows| - 1], spf, valueField);
    }
  }

  const AggregateTypes: set<string> := {"sum", "avg", "count"}

  /** The value of one bucket: the sum, the mean or the number of its
      values. */
  function Aggregate(values: seq<real>, aggType: string): real
    requires values != []
  {
    if aggType == "sum" then Total(values)
    else if aggType == "avg" then Total(values) / |values| as real
    else |values| as real
  }

  /** `sortedKeys.map(k => aggregate(groups[k]))` */
  function AggregateAll(keys: seq<string>, groups: map<string, seq<real>>, aggType: string): (r: seq<real>)
    requires forall k :: k in keys ==> k in groups && groups[k] != []
    ensures |r| == |keys|
    ensures forall i :: 0 <= i < |keys| ==> r[i] == Aggregate(groups[keys[i]], aggType)
  {
    if keys == [] then []
    else AggregateAll(keys[..|keys| - 1], groups, aggType) + [Aggregate(groups[keys[|keys| - 1]], aggType)]
  }

  /** The values groupByDate collects for the bucket `k`. */
  function BucketValues(data: seq<Row>, valueField: string, period: string, spf: ParseFloatFn, k: string): seq<real> {
    MapKeys(Group(Select(data, Dated), Bucket(period), k), NumberAt(spf, valueField))
  }

  /** groupByDate(data, valueField, period, aggType): the buckets of the
      dated records in sorted order, each with the aggregate of its values;
      an unknown aggregate type leaves the values undefined. */
  method GroupByDate(data: seq<Row>, valueField: string, period: string, aggType: string, spf: ParseFloatFn)
    returns (labels: seq<string>, values: Option<seq<real>>)
    ensures StrictlySorted(labels) && NoDups(labels)
    ensures forall k :: k in labels <==> k in KeysOf(Select(data, Dated), Bucket(period))
    ensures forall k :: k in labels ==> BucketValues(data, valueField, period, spf, k) != []
    ensures values.Some? <==> aggType in AggregateTypes
    ensures values.Some? ==> |values.value| == |labels|
    ensures values.Some? ==> forall i :: 0 <= i < |labels| ==>
      values.value[i] == Aggregate(BucketValues(data, valueField, period, spf, labels[i]), aggType)
  {
    var keys, groups := FoldByKeyWhere(data, Dated, Bucket(period), [], Pusher(spf, valueField));
    BucketGroups(data, valueField, period, spf, keys, groups);
    labels := SortKeys(keys);
    if aggType in AggregateTypes {
      values := Some(AggregateAll(labels, groups, aggType));
    } else {
      values := None;
    }
  }

  /** Each group the loop fills holds the values of its bucket's records,
      and none is empty. */
  lemma BucketGroups(data: seq<Row>, valueField: string, period: string, spf: ParseFloatFn,
                     keys: seq<string>, groups: map<string, seq<real>>)
    requires keys == KeysOf(Select(data, Dated), Bucket(period))
    requires forall k :: k in groups <==> k in keys
    requires forall k :: k in groups ==> groups[k] == FoldL(Group(Select(data, Dated), Bucket(period), k), [], Pusher(spf, valueField))
    ensures forall k :: k in groups ==> groups[k] == BucketValues(data, valueField, period, spf, k) && groups[k] != []
  {
    var dated := Select(data, Dated);
    forall k | k in groups
      ensures groups[k] == BucketValues(data, valueField, period, spf, k) && groups[k] != []
    {
      PushedValues(Group(dated, Bucket(period), k), spf, valueField);
      GroupOfListedKey(dated, Bucket(period), k);
    }
  }

  /** The buckets groupByDate lists are those of the dated records. */
  lemma BucketsAreDatedKeys(data: seq<Row>, period: string, k: string)
    ensures k in KeysOf(Select(data, Dated), Bucket(period)) <==>
      exists i :: 0 <= i < |data| && Dated(data[i]) && Bucket(period)(data[i]) == k
  {
    KeysOfSelect(data, Dated, Bucket(period), k);
  }

  /** The sums of the buckets add up to the sum over all dated records:
      grouping by period loses and repeats nothing. */
  lemma SumsAddUp(data: seq<Row>, valueField: string, period: string, spf: ParseFloatFn,
                  labels: seq<string>, values: seq<real>)
    requires NoDups(labels) && forall k :: k in labels <==> k in KeysOf(Select(data, Dated), Bucket(period))
    requires |values| == |labels|
    requires forall i :: 0 <= i < |labels| ==> values[i] == Total(BucketValues(data, valueField, period, spf, labels[i]))
    ensures Total(values) == SumValues(Select(data, Dated), NumberAt(spf, valueField))
  {
    var dated, val := Select(data, Dated), NumberAt(spf, valueField);
    forall i | 0 <= i < |labels|
      ensures values[i] == SumValues(Group(dated, Bucket(period), labels[i]), val)
    {
      TotalOfMapped(Group(dated, Bucket(period), labels[i]), val);
    }
    TotalOfGroups(dated, Bucket(period), val, labels, values);
    NoDupsSameMembers(labels, KeysOf(dated, Bucket(period)));
    SumGroupsPermutation(dated, Bucket(period), val, labels, KeysOf(dated, Bucket(period)));
    GroupsPartition(dated, Bucket(period), val);
  }

  /** The counts of the buckets add up to the number of dated records. */
  lemma CountsAddUp(data: seq<Row>, valueField: string, period: string, spf: ParseFloatFn,
                    labels: seq<string>, values: seq<real>)
    requires NoDups(labels) && forall k :: k in labels <==> k in KeysOf(Select(data, Dated), Bucket(period))
    requires |values| == |labels|
    requires forall i :: 0 <= i < |labels| ==> values[i] == |BucketValues(data, valueField, period, spf, labels[i])| as real
    ensures Total(values) == |Select(data, Dated)| as real
  {
    var dated := Select(data, Dated);
    forall i | 0 <= i < |labels|
      ensures values[i] == SumValues(Group(dated, Bucket(period), labels[i]), One)
    {
      SumOfOnes(Group(dated, Bucket(period), labels[i]));
    }
    TotalOfGroups(dated, Bucket(period), One, labels, values);
    NoDupsSameMembers(labels, KeysOf(dated, Bucket(period)));
    SumGroupsPermutation(dated, Bucket(period), One, labels, KeysOf(dated, Bucket(period)));
    GroupBySizes(dated, Bucket(period));
  }

  /** The mean of a bucket times its size is its sum. */
  lemma MeanTimesCount(values: seq<real>)
    requires values != []
    ensures Aggregate(values, "avg") * Aggregate(values, "count") == Aggregate(values, "sum")
  {
  }

  // ============================================ month keys sort by date

  /** The text of a whole number is its decimal digits. */
  lemma WholeNumberText(n: nat)
    ensures NumberText(n as real) == NatToString(n)
  {
    NatToStringDigits(n);
    assert (n as real).Floor as nat == n;
  }

  /** A number below 100 padded to two characters is its two digits. */
  lemma PaddedDigits(n: nat)
    requires n < 100
    ensures PadStart2(NatToString(n)) == [DigitChar(n / 10), DigitChar(n % 10)]
  {
    if n >= 10 {
      assert NatToString(n / 10) == [DigitChar(n / 10)];
    }
  }

  /** A common prefix does not change the string order. */
  lemma {:induction false} StrLessPrefix(p: string, a: string, b: string)
    ensures StrLess(p + a, p + b) <==> StrLess(a, b)
  {
    if p != [] {
      assert |p + a| > 0 && |p + b| > 0 && (p + a)[0] == p[0] == (p + b)[0];
      assert (p + a)[1..] == p[1..] + a;
      assert (p + b)[1..] == p[1..] + b;
      StrLessPrefix(p[1..], a, b);
    } else {
      assert p + a == a && p + b == b;
    }
  }

  /** Two-digit texts compare as their numbers. */
  lemma TwoDigitsOrder(a: nat, b: nat)
    requires a < b < 100
    ensures StrLess([DigitChar(a / 10), DigitChar(a % 10)], [DigitChar(b / 10), DigitChar(b % 10)])
  {
    var x, y := [DigitChar(a / 10), DigitChar(a % 10)], [DigitChar(b / 10), DigitChar(b % 10)];
    if a / 10 == b / 10 {
      assert x[1..] == [DigitChar(a % 10)] && y[1..] == [DigitChar(b % 10)];
    }
  }

  /** Padding the month to two characters makes the sorted month keys of a
      year chronological: month m1 sorts before a later month m2. */
  lemma MonthKeysChronological(d1: real, d2: real, m1: nat, m2: nat, year: real)
    requires 1 <= m1 < m2 <= 12
    ensures StrLess(PeriodKey(DMY(d1, m1 as real, year), "month"), PeriodKey(DMY(d2, m2 as real, year), "month"))
  {
    WholeNumberText(m1);
    WholeNumberText(m2);
    PaddedDigits(m1);
    PaddedDigits(m2);
    TwoDigitsOrder(m1, m2);
    StrLessPrefix(NumberText(year) + "-", PadStart2(NumberText(m1 as real)), PadStart2(NumberText(m2 as real)));
  }

  // ================================================== prepareWelderLines

  /** prepareWelderLines keys by month or by quarter; any other period
      leaves the key undefined. */
  function LinePeriodKey(d: DayMonthYear, period: string): string {
    if period == "month" || period == "quarter" then PeriodKey(d, period) else "undefined"
  }

  /** `row["welder_normalized"]` */
  function WelderAt(row: Row): Option<Cell> {
    Get(row, WelderColumn)
  }

  /** A record counts on the chart when it names a welder and is dated. */
  predicate OnLine(row: Row) {
    Truthy(WelderAt(row)) && Dated(row)
  }

  /** The period of a dated record on the chart. */
  function LinePeriodOf(row: Row, period: string): string {
    match DateOf(row)
    case Some(d) => LinePeriodKey(d, period)
    case None => ""
  }

  function LinePeriod(period: string): Row -> string {
    row => LinePeriodOf(row, period)
  }

  /** `series[welder][periodKey]`: the welder's object key and the period. */
  function LineKeyOf(row: Row, period: string): (string, string) {
    (WelderKey(row), LinePeriodOf(row, period))
  }

  function LineKey(period: string): Row -> (string, string) {
    row => LineKeyOf(row, period)
  }

  /** `series[welder][periodKey] += safeParseFloat(row["Длина сварных швов"])` */
  function PlusLength(sum: real, row: Row, spf: ParseFloatFn): real {
    sum + spf(Get(row, LengthColumn))
  }

  function LengthAdder(spf: ParseFloatFn): (real, Row) -> real {
    (sum, row) => PlusLength(sum, row, spf)
  }

  lemma {:induction false} AddedLengths(rows: seq<Row>, spf: ParseFloatFn)
    ensures FoldL(rows, 0.0, LengthAdder(spf)) == SumValues(rows, LengthFn(spf))
  {
    if rows != [] {
      AddedLengths(rows[..|rows| - 1], spf);
    }
  }

  /** The records of one point of the chart: those of the welder whose
      object key is `key`, dated within period `p`. */
  predicate InPoint(row: Row, key: string, p: string, period: string) {
    OnLine(row) && WelderKey(row) == key && LinePeriodOf(row, period) == p
  }

  function PointFilter(key: string, p: string, period: string): Row -> bool {
    row => InPoint(row, key, p, period)
  }

  /** The group of a (welder, period) pair among the charted records is
      the selection of that point's records. */
  lemma {:induction false} PointGroup(rows: seq<Row>, period: string, key: string, p: string)
    ensures Group(Select(rows, OnLine), LineKey(period), (key, p)) == Select(rows, PointFilter(key, p, period))
  {
    if rows != [] {
      var init, x := rows[..|rows| - 1], rows[|rows| - 1];
      PointGroup(init, period, key, p);
      assert rows == init + [x];
      SelectStep(init, OnLine, x);
      SelectStep(init, PointFilter(key, p, period), x);
      if OnLine(x) {
        GroupStep(Select(init, OnLine), LineKey(period), x, (key, p));
      }
    }
  }

  /** The object key of a welder value: String(welder). */
  function WelderName(c: Cell): string {
    CellText(c)
  }

  /** The second part of a (welder, period) key. */
  function PeriodPart(k: (string, string)): string {
    k.1
  }

  /** One line of the chart: the welder, a value per period, and its colour. */
  datatype LineSeries = LineSeries(welder: Cell, data: seq<real>, color: Color)

  /** `series[welder][p] || 0` */
  function PointValue(series: map<(string, string), real>, key: string, p: string): real {
    if (key, p) in series then series[(key, p)] else 0.0
  }

  /** `sortedPeriods.map(p => series[welder][p] || 0)` */
  function LineData(series: map<(string, string), real>, key: string, periods: seq<string>): (r: seq<real>)
    ensures |r| == |periods|
    ensures forall j :: 0 <= j < |periods| ==> r[j] == PointValue(series, key, periods[j])
  {
    if periods == [] then []
    else LineData(series, key, periods[..|periods| - 1]) + [PointValue(series, key, periods[|periods| - 1])]
  }

  /** `welders.map((welder, idx) => ({ label, data, borderColor: colors[idx] }))` */
  function Lines(welders: seq<Cell>, series: map<(string, string), real>, periods: seq<string>, colors: seq<Color>)
    : (r: seq<LineSeries>)
    requires |colors| == |welders|
    ensures |r| == |welders|
    ensures forall i :: 0 <= i < |welders| ==>
      && r[i].welder == welders[i] && r[i].color == colors[i]
      && r[i].data == LineData(series, WelderName(welders[i]), periods)
      && |r[i].data| == |periods|
  {
    if welders == [] then []
    else
      var n := |welders| - 1;
      Lines(welders[..n], series, periods, colors[..n])
        + [LineSeries(welders[n], LineData(series, WelderName(welders[n]), periods), colors[n])]
  }

  /** prepareWelderLines(period): the periods that occur, sorted; one line
      per distinct welder named in the records, in first-seen order, with
      the colour of its index; each point is the total seam length of that
      welder's records in that period, 0 where there are none. */
  method PrepareWelderLines(filtered: seq<Row>, period: string, spf: ParseFloatFn)
    returns (labels: seq<string>, datasets: seq<LineSeries>)
    ensures StrictlySorted(labels)
    ensures forall p :: p in labels <==> p in MapKeys(Select(filtered, OnLine), LinePeriod(period))
    ensures |datasets| == |TruthySet(filtered, WelderAt)|
    ensures forall i :: 0 <= i < |datasets| ==>
      && datasets[i].welder == TruthySet(filtered, WelderAt)[i]
      && datasets[i].color == ColorAt(i)
      && |datasets[i].data| == |labels|
    ensures forall i, j :: 0 <= i < |datasets| && 0 <= j < |labels| ==>
      datasets[i].data[j]
        == SumValues(Select(filtered, PointFilter(WelderName(datasets[i].welder), labels[j], period)), LengthFn(spf))
  {
    var welders := CollectTruthy(filtered, WelderAt);
    var keys, series := FoldByKeyWhere(filtered, OnLine, LineKey(period), 0.0, LengthAdder(spf));
    var periods := Unique(MapKeys(keys, PeriodPart));
    labels := SortKeys(periods);
    var colors := GenerateColors(|welders|);
    datasets := Lines(welders, series, labels, colors);
    forall p ensures p in labels <==> p in MapKeys(Select(filtered, OnLine), LinePeriod(period)) {
      PartsOfKeysOf(Select(filtered, OnLine), LineKey(period), PeriodPart, LinePeriod(period), p);
    }
    LinePoints(filtered, period, spf, keys, series, labels, welders, colors, datasets);
  }

  /** Every point of every line sums the lengths of its records. */
  lemma LinePoints(filtered: seq<Row>, period: string, spf: ParseFloatFn,
                   keys: seq<(string, string)>, series: map<(string, string), real>,
                   labels: seq<string>, welders: seq<Cell>, colors: seq<Color>, datasets: seq<LineSeries>)
    requires keys == KeysOf(Select(filtered, OnLine), LineKey(period))
    requires forall k :: k in series <==> k in keys
    requires forall k :: k in series ==>
      series[k] == FoldL(Group(Select(filtered, OnLine), LineKey(period), k), 0.0, LengthAdder(spf))
    requires |colors| == |welders| && datasets == Lines(welders, series, labels, colors)
    ensures forall i, j :: 0 <= i < |datasets| && 0 <= j < |labels| ==>
      datasets[i].data[j]
        == SumValues(Select(filtered, PointFilter(WelderName(datasets[i].welder), labels[j], period)), LengthFn(spf))
  {
    forall i, j | 0 <= i < |datasets| && 0 <= j < |labels|
      ensures datasets[i].data[j]
        == SumValues(Select(filtered, PointFilter(WelderName(datasets[i].welder), labels[j], period)), LengthFn(spf))
    {
      PointSum(filtered, period, spf, keys, series, WelderName(welders[i]), labels[j]);
    }
  }

  /** A point of the chart sums the lengths of its records. */
  lemma PointSum(filtered: seq<Row>, period: string, spf: ParseFloatFn,
                 keys: seq<(string, string)>, series: map<(string, string), real>, key: string, p: string)
    requires keys == KeysOf(Select(filtered, OnLine), LineKey(period))
    requires forall k :: k in series <==> k in keys
    requires forall k :: k in series ==>
      series[k] == FoldL(Group(Select(filtered, OnLine), LineKey(period), k), 0.0, LengthAdder(spf))
    ensures PointValue(series, key, p) == SumValues(Select(filtered, PointFilter(key, p, period)), LengthFn(spf))
  {
    var charted := Select(filtered, OnLine);
    PointGroup(filtered, period, key, p);
    AddedLengths(Group(charted, LineKey(period), (key, p)), spf);
    if (key, p) !in series {
      KeysOfMembers(charted, LineKey(period), (key, p));
      GroupOfAbsentKey(charted, LineKey(period), (key, p));
    }
  }

  /** A welder none of whose records is dated has a flat line at 0. */
  lemma UndatedWelderIsFlat(filtered: seq<Row>, period: string, spf: ParseFloatFn, key: string, p: string)
    requires forall i :: 0 <= i < |filtered| && OnLine(filtered[i]) ==> WelderKey(filtered[i]) != key
    ensures SumValues(Select(filtered, PointFilter(key, p, period)), LengthFn(spf)) == 0.0
  {
    SelectNone(filtered, PointFilter(key, p, period));
  }
}
