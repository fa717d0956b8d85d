/** computeWeldersStats and the welder ranking of app.js: per welder, the
    operation count, the seam length plain and weighted by cutting pattern
    and wire material, the unique bottoms and shift dates, the defective
    bottoms, and the score the ranking sorts by. */
module Welders {
  import opened JsText
  import opened Helpers
  import opened Parser
  import opened Records
  import opened Defects

  // ========================================================== coefficients

  /** cutCoeffs: the difficulty of a cutting pattern by its first letter
      (Cyrillic А to Е); any other letter counts 1. */
  function CutCoeffOf(letter: char): (c: real)
    ensures 1.0 <= c <= 5.0
  {
    match letter
    case 'А' => 2.0
    case 'Б' => 2.0
    case 'В' => 3.0
    case 'Г' => 4.0
    case 'Д' => 5.0
    case 'Е' => 4.5
    case _ => 1.0
  }

  /** `row[col] ? row[col].toString().trim() : ""` */
  function TrimmedText(row: Row, col: string): string {
    var v := Get(row, col);
    if Truthy(v) then Trim(CellText(v.value)) else ""
  }

  /** The cutting coefficient of a record: looked up by the upper-cased
      first character of its cutting pattern, 1 when it has none. */
  function CutCoeff(row: Row): (c: real)
    ensures 1.0 <= c <= 5.0
  {
    var cutType := TrimmedText(row, CuttingColumn);
    if cutType == "" then 1.0 else CutCoeffOf(UpperChar(cutType[0]))
  }

  /** The wires of carbon steel. */
  const CarbonWires: seq<string> := ["08Г2С", "10НМА", "08ГА"]

  /** The material coefficient: 1 when the wire names a carbon-steel wire,
      1.2 (stainless) otherwise. */
  function MaterialCoeff(row: Row): (m: real)
    ensures m == 1.0 || m == 1.2
    ensures m == 1.0 <==> exists i :: 0 <= i < |CarbonWires| && Contains(TrimmedText(row, WireMaterialColumn), CarbonWires[i])
  {
    var wire := TrimmedText(row, WireMaterialColumn);
    if exists i :: 0 <= i < |CarbonWires| && Contains(wire, CarbonWires[i]) then 1.0 else 1.2
  }

  /** `length * cutCoeff * materialCoeff` */
  function Weight(spf: ParseFloatFn, row: Row): real {
    Scaled(spf(Get(row, LengthColumn)), CutCoeff(row), MaterialCoeff(row))
  }

  function Scaled(len: real, c: real, m: real): real {
    len * c * m
  }

  function WeightFn(spf: ParseFloatFn): Row -> real {
    row => Weight(spf, row)
  }

  /** A seam of non-negative length weighs between once and six times its
      length: the cutting coefficient is 1 to 5 and the material one 1 or 1.2. */
  lemma WeightBounds(spf: ParseFloatFn, row: Row)
    requires LengthFn(spf)(row) >= 0.0
    ensures LengthFn(spf)(row) <= WeightFn(spf)(row) <= 6.0 * LengthFn(spf)(row)
  {
    ScaledBounds(LengthFn(spf)(row), CutCoeff(row), MaterialCoeff(row));
  }

  lemma ScaledBounds(len: real, c: real, m: real)
    requires len >= 0.0 && 1.0 <= c <= 5.0 && (m == 1.0 || m == 1.2)
    ensures len <= Scaled(len, c, m) <= 6.0 * len
  {
    assert len * c - len == len * (c - 1.0);
    assert len * c * m - len * c == len * c * (m - 1.0);
    assert 6.0 * len - len * c * m == len * (6.0 - c * m);
  }

  // ======================================================== per welder

  /** What the first loop accumulates for one welder. */
  datatype Tally = Tally(total: nat, totalLength: real, weightedTotal: real, bottoms: seq<Cell>, days: seq<Cell>)

  const EmptyTally: Tally := Tally(0, 0.0, 0.0, [], [])

  /** The body of the first loop, for a record of this welder. */
  function AddRow(spf: ParseFloatFn): (Tally, Row) -> Tally {
    (t: Tally, row: Row) => Tally(
      t.total + 1,
      t.totalLength + LengthFn(spf)(row),
      t.weightedTotal + WeightFn(spf)(row),
      AddTruthy(t.bottoms, BottomAt(row)),
      AddTruthy(t.days, DateAt(row)))
  }

  /** The tally of a welder's records, stated without the loop: their
      number, their summed lengths plain and weighted, their distinct truthy
      bottoms and their distinct truthy dates. */
  function TallyOf(rows: seq<Row>, spf: ParseFloatFn): Tally {
    Tally(|rows|, SumValues(rows, LengthFn(spf)), SumValues(rows, WeightFn(spf)),
          BottomSet(rows), TruthySet(rows, DateAt))
  }

  /** The loop computes that tally. */
  lemma {:induction false} AccumulatedTally(rows: seq<Row>, spf: ParseFloatFn)
    ensures FoldL(rows, EmptyTally, AddRow(spf)) == TallyOf(rows, spf)
  {
    if rows != [] {
      AccumulatedTally(rows[..|rows| - 1], spf);
    }
  }

  /** The per-welder figures of computeWeldersStats, unrounded. */
  datatype WelderStats = WelderStats(
    total: nat, totalLength: real, weightedTotal: real,
    bottoms: seq<Cell>, days: seq<Cell>,
    defect: nat, avgLength: real, defectRate: real, avgLengthPerShift: real, score: real)

  /** The score drops by this much per defective bottom. */
  const PenaltyPerDefect: real := 10.0

  /** The derived figures of a tally with `defect` defective bottoms. */
  function Summary(t: Tally, defect: nat): WelderStats {
    var n := t.total as real;
    var days := |t.days| as real;
    WelderStats(
      t.total, t.totalLength, t.weightedTotal, t.bottoms, t.days, defect,
      if t.total > 0 then t.totalLength / n else 0.0,
      if t.total > 0 then defect as real / n * 100.0 else 0.0,
      if days > 0.0 then t.totalLength / days else 0.0,
      t.weightedTotal - defect as real * PenaltyPerDefect)
  }

  /** What the derived figures mean: the average length per operation and
      per shift date, the defective bottoms per hundred operations (each 0
      when there is nothing to divide by), and the weighted length less the
      penalty. */
  lemma SummaryFigures(t: Tally, defect: nat)
    ensures var s := Summary(t, defect);
      && s.total == t.total && s.totalLength == t.totalLength && s.weightedTotal == t.weightedTotal
      && s.bottoms == t.bottoms && s.days == t.days && s.defect == defect
      && (t.total == 0 ==> s.avgLength == 0.0 && s.defectRate == 0.0)
      && (t.total > 0 ==> s.avgLength * t.total as real == t.totalLength)
      && (t.total > 0 ==> s.defectRate * t.total as real == defect as real * 100.0)
      && (|t.days| == 0 ==> s.avgLengthPerShift == 0.0)
      && (|t.days| > 0 ==> s.avgLengthPerShift * |t.days| as real == t.totalLength)
      && s.score == t.weightedTotal - PenaltyPerDefect * defect as real
  {
  }

  /** A welder's defect count is the number of their distinct bottoms that
      are marked defective, however many operations share a bottom. */
  lemma WelderDefectCount(rows: seq<Row>, defective: seq<Cell>, spf: ParseFloatFn)
    ensures var s := StatsOf(rows, defective, spf);
      && s.total == |rows|
      && s.defect == |set b | b in BottomSet(rows) && b in defective|
  {
    BottomCountIsIntersection(rows, defective);
  }

  /** The bottoms of the main-stage defect records, when there is a defect
      sheet (window.hasDefectData()); none otherwise. */
  function DefectiveBottoms(filteredDefects: seq<Row>, hasDefects: bool): seq<Cell> {
    if hasDefects then BottomSet(MainDefectData(filteredDefects)) else []
  }

  /** The figures of a welder whose records are `rows`. */
  function StatsOf(rows: seq<Row>, defective: seq<Cell>, spf: ParseFloatFn): WelderStats {
    var t := TallyOf(rows, spf);
    Summary(t, CountIn(t.bottoms, defective))
  }

  /** computeWeldersStats over the filtered records: one entry per welder
      key, in first-seen order, holding the figures of that welder's
      records. */
  method ComputeWeldersStats(filtered: seq<Row>, filteredDefects: seq<Row>, hasDefects: bool, spf: ParseFloatFn)
    returns (keys: seq<string>, stats: map<string, WelderStats>)
    ensures keys == KeysOf(filtered, WelderKey)
    ensures forall w :: w in stats <==> w in keys
    ensures forall w :: w in stats ==>
      stats[w] == StatsOf(Group(filtered, WelderKey, w), DefectiveBottoms(filteredDefects, hasDefects), spf)
  {
    var tallies;
    keys, tallies := FoldByKey(filtered, WelderKey, EmptyTally, AddRow(spf));
    var defective: seq<Cell> := [];
    if hasDefects {
      defective := CollectTruthy(MainDefectData(filteredDefects), BottomAt);
    }
    stats := Summarize(keys, tallies, defective);
    forall w | w in stats
      ensures stats[w] == StatsOf(Group(filtered, WelderKey, w), DefectiveBottoms(filteredDefects, hasDefects), spf)
    {
      AccumulatedTally(Group(filtered, WelderKey, w), spf);
    }
  }

  /** The second loop: count each welder's defective bottoms and derive
      the figures. */
  method Summarize(keys: seq<string>, tallies: map<string, Tally>, defective: seq<Cell>)
    returns (stats: map<string, WelderStats>)
    requires forall w :: w in tallies <==> w in keys
    ensures forall w :: w in stats <==> w in keys
    ensures forall w :: w in stats ==> stats[w] == Summary(tallies[w], CountIn(tallies[w].bottoms, defective))
  {
    stats := map[];
    var j := 0;
    while j < |keys|
      invariant 0 <= j <= |keys|
      invariant forall w :: w in stats <==> w in keys[..j]
      invariant forall w :: w in stats ==> stats[w] == Summary(tallies[w], CountIn(tallies[w].bottoms, defective))
    {
      var w := keys[j];
      var defect := CountMembers(tallies[w].bottoms, defective);
      stats := stats[w := Summary(tallies[w], defect)];
      assert keys[..j + 1] == keys[..j] + [w];
      j := j + 1;
    }
    assert keys[..j] == keys;
  }

  // ============================================================ properties

  /** Every filtered record is counted under exactly one welder: the
      operation counts add up to the number of records, and the seam
      lengths, plain and weighted, to the filtered totals. */
  lemma WelderTotalsAddUp(filtered: seq<Row>, spf: ParseFloatFn)
    ensures SumGroups(filtered, WelderKey, One, KeysOf(filtered, WelderKey)) == |filtered| as real
    ensures SumGroups(filtered, WelderKey, LengthFn(spf), KeysOf(filtered, WelderKey)) == SumValues(filtered, LengthFn(spf))
    ensures SumGroups(filtered, WelderKey, WeightFn(spf), KeysOf(filtered, WelderKey)) == SumValues(filtered, WeightFn(spf))
  {
    GroupBySizes(filtered, WelderKey);
    GroupsPartition(filtered, WelderKey, LengthFn(spf));
    GroupsPartition(filtered, WelderKey, WeightFn(spf));
  }

  /** A listed welder has at least one operation; their defective bottoms
      are among their unique bottoms, which are no more than their
      operations, and so are their shift dates; hence the defect rate lies
      between 0 and 100. */
  lemma StatsBounds(filtered: seq<Row>, defective: seq<Cell>, spf: ParseFloatFn, w: string)
    requires w in KeysOf(filtered, WelderKey)
    ensures var s := StatsOf(Group(filtered, WelderKey, w), defective, spf);
      && s.total >= 1
      && s.defect <= |s.bottoms| <= s.total
      && |s.days| <= s.total
      && 0.0 <= s.defectRate <= 100.0
  {
    GroupOfListedKey(filtered, WelderKey, w);
    var t := TallyOf(Group(filtered, WelderKey, w), spf);
    SummaryBounds(t, CountIn(t.bottoms, defective));
  }

  /** The defect rate of a tally with at least one operation and no more
      defects than operations is a percentage. */
  lemma SummaryBounds(t: Tally, defect: nat)
    requires 1 <= t.total && defect <= t.total
    ensures 0.0 <= Summary(t, defect).defectRate <= 100.0
  {
    var n := t.total as real;
    var rate := Summary(t, defect).defectRate;
    assert rate * n == defect as real * 100.0;
    assert rate > 100.0 ==> rate * n > 100.0 * n;
    assert rate < 0.0 ==> rate * n < 0.0;
  }

  /** Defects come only through bottoms: a welder none of whose bottoms is
      defective (in particular any welder when there is no defect sheet)
      has no defects, and their score is their weighted length. */
  lemma NoDefectiveBottomNoPenalty(filtered: seq<Row>, filteredDefects: seq<Row>, spf: ParseFloatFn, w: string)
    ensures var s := StatsOf(Group(filtered, WelderKey, w), DefectiveBottoms(filteredDefects, false), spf);
      s.defect == 0 && s.score == s.weightedTotal
  {
    NothingCountedInEmpty(BottomSet(Group(filtered, WelderKey, w)));
  }

  lemma {:induction false} NothingCountedInEmpty(xs: seq<Cell>)
    ensures CountIn(xs, []) == 0
  {
    if xs != [] {
      NothingCountedInEmpty(xs[..|xs| - 1]);
    }
  }

  /** With non-negative seam lengths, the weighted total of a welder lies
      between their plain total and six times it. */
  lemma WeightedTotalBounds(rows: seq<Row>, defective: seq<Cell>, spf: ParseFloatFn)
    requires forall i :: 0 <= i < |rows| ==> LengthFn(spf)(rows[i]) >= 0.0
    ensures var s := StatsOf(rows, defective, spf);
      s.totalLength <= s.weightedTotal <= 6.0 * s.totalLength
  {
    WeightedSumBounds(rows, spf);
  }

  lemma {:induction false} WeightedSumBounds(rows: seq<Row>, spf: ParseFloatFn)
    requires forall i :: 0 <= i < |rows| ==> LengthFn(spf)(rows[i]) >= 0.0
    ensures SumValues(rows, LengthFn(spf)) <= SumValues(rows, WeightFn(spf)) <= 6.0 * SumValues(rows, LengthFn(spf))
  {
    if rows != [] {
      var init := rows[..|rows| - 1];
      WeightedSumBounds(init, spf);
      WeightBounds(spf, rows[|rows| - 1]);
    }
  }

  // =============================================================== ranking

  /** An entry of `Object.entries(welders)`. */
  datatype Entry = Entry(welder: string, stats: WelderStats)

  function ScoreOf(e: Entry): real {
    e.stats.score
  }

  /** `Object.entries(welders)`, in key order. */
  function Entries(keys: seq<string>, stats: map<string, WelderStats>): (es: seq<Entry>)
    requires forall w :: w in keys ==> w in stats
    ensures |es| == |keys|
    ensures forall i :: 0 <= i < |keys| ==> es[i] == Entry(keys[i], stats[keys[i]])
  {
    if keys == [] then [] else Entries(keys[..|keys| - 1], stats) + [Entry(keys[|keys| - 1], stats[keys[|keys| - 1]])]
  }

  /** The ranking shows at most this many welders. */
  const RankingSize: nat := 10

  /** `entries.sort((a, b) => b[1].score - a[1].score).slice(0, 10)` */
  function Ranking(entries: seq<Entry>): seq<Entry> {
    var sorted := SortBy(entries, ScoreOf, "desc");
    sorted[..if |sorted| < RankingSize then |sorted| else RankingSize]
  }

  /** A prefix holds no element more often than the whole sequence does. */
  lemma PrefixMultiset<T>(s: seq<T>, k: nat)
    requires k <= |s|
    ensures multiset(s[..k]) <= multiset(s)
  {
    assert s == s[..k] + s[k..];
  }

  /** The ranking holds the ten best scores (all entries when there are
      fewer), best first, each entry shown no more often than it occurs;
      every entry left out scores no more than the last one shown. */
  lemma RankingIsTopTen(entries: seq<Entry>)
    ensures var r := Ranking(entries);
      && |r| == (if |entries| < RankingSize then |entries| else RankingSize)
      && (forall i, j :: 0 <= i < j < |r| ==> ScoreOf(r[i]) >= ScoreOf(r[j]))
      && (forall i :: 0 <= i < |r| ==> r[i] in entries)
      && multiset(r) <= multiset(entries)
      && (forall e :: e in entries && e !in r ==> ScoreOf(e) <= ScoreOf(r[|r| - 1]))
  {
    var sorted := SortBy(entries, ScoreOf, "desc");
    var r := Ranking(entries);
    PrefixMultiset(sorted, |r|);
    assert |sorted| == |entries| by {
      assert |multiset(sorted)| == |multiset(entries)|;
    }
    forall i | 0 <= i < |r| ensures r[i] in entries {
      assert r[i] == sorted[i];
      assert sorted[i] in multiset(sorted);
    }
    assert forall k :: 0 <= k < |r| ==> r[k] == sorted[k];
    forall e | e in entries && e !in r ensures ScoreOf(e) <= ScoreOf(r[|r| - 1]) {
      assert e in multiset(entries);
      assert e in multiset(sorted);
      var j :| 0 <= j < |sorted| && sorted[j] == e;
      assert !After(sorted[|r| - 1], sorted[j], ScoreOf, false);
    }
  }
}
