/** The defect classifier of app.js: the defect records split by workflow
    stage, the histogram of the other stages, the rework incidence per
    welder, and the configurable rule used when there is no defect sheet. */
module Defects {
  import opened JsText
  import opened Helpers
  import opened Parser
  import opened Records

  const MainStage: string := "Предъявление продукции"
  const ReworkStage: string := "Исправление повторное"
  const UnnamedStage: string := "Не указано"

  // =========================================================== stages

  /** `d["Технологическая операция"] === label` */
  predicate HasStage(d: Row, stage: string) {
    Get(d, StageColumn) == Some(Str(stage))
  }

  predicate IsMainDefect(d: Row) {
    HasStage(d, MainStage)
  }

  predicate IsRework(d: Row) {
    HasStage(d, ReworkStage)
  }

  /** The stage is set and is neither of the two named ones. */
  predicate IsOtherDefect(d: Row) {
    Truthy(Get(d, StageColumn)) && !IsMainDefect(d) && !IsRework(d)
  }

  /** getMainDefectData */
  function MainDefectData(filteredDefects: seq<Row>): seq<Row> {
    if filteredDefects == [] then [] else Select(filteredDefects, IsMainDefect)
  }

  /** getReworkDefectData */
  function ReworkDefectData(filteredDefects: seq<Row>): seq<Row> {
    if filteredDefects == [] then [] else Select(filteredDefects, IsRework)
  }

  /** The records of the "other" histogram. */
  function OtherDefects(filteredDefects: seq<Row>): seq<Row> {
    Select(filteredDefects, IsOtherDefect)
  }

  /** The histogram label of a record: String of its stage, or "Не указано". */
  function StageLabel(d: Row): string {
    var op := Get(d, StageColumn);
    if Truthy(op) then CellText(op.value) else UnnamedStage
  }

  /** The three stage buckets are selected by exact label and share no
      record; a record with a stage lands in exactly one of them. */
  lemma StagePartition(filteredDefects: seq<Row>, d: Row)
    requires d in filteredDefects
    ensures !(d in MainDefectData(filteredDefects) && d in ReworkDefectData(filteredDefects))
    ensures d in MainDefectData(filteredDefects) <==> IsMainDefect(d)
    ensures d in ReworkDefectData(filteredDefects) <==> IsRework(d)
    ensures d in OtherDefects(filteredDefects) <==> Truthy(Get(d, StageColumn)) && !IsMainDefect(d) && !IsRework(d)
    ensures Truthy(Get(d, StageColumn)) ==>
      (if IsMainDefect(d) then 1 else 0) + (if IsRework(d) then 1 else 0) + (if IsOtherDefect(d) then 1 else 0) == 1
  {
    var i :| 0 <= i < |filteredDefects| && filteredDefects[i] == d;
  }

  /** `getOtherDefectsData`: the other stages, counted by label, labels in
      the order they were first seen. */
  method GetOtherDefectsData(filteredDefects: seq<Row>) returns (labels: seq<string>, counts: seq<nat>)
    ensures labels == KeysOf(OtherDefects(filteredDefects), StageLabel)
    ensures |counts| == |labels|
    ensures forall i :: 0 <= i < |labels| ==>
      counts[i] == |Group(OtherDefects(filteredDefects), StageLabel, labels[i])|
  {
    if filteredDefects == [] {
      return [], [];
    }
    var other := OtherDefects(filteredDefects);
    var byOperation;
    labels, byOperation := FoldByKey(other, StageLabel, 0, Tick);
    counts := [];
    var j := 0;
    while j < |labels|
      invariant 0 <= j <= |labels| && |counts| == j
      invariant forall t :: 0 <= t < j ==> counts[t] == |Group(other, StageLabel, labels[t])|
    {
      assert labels[j] in byOperation;
      FoldTickCounts(Group(other, StageLabel, labels[j]));
      counts := counts + [byOperation[labels[j]]];
      j := j + 1;
    }
  }

  /** Every label of the histogram was seen at least once, and the counts
      together number the "other" records. */
  lemma OtherHistogramCounts(filteredDefects: seq<Row>, name: string)
    ensures name in KeysOf(OtherDefects(filteredDefects), StageLabel) ==>
      |Group(OtherDefects(filteredDefects), StageLabel, name)| >= 1
    ensures SumGroups(OtherDefects(filteredDefects), StageLabel, One, KeysOf(OtherDefects(filteredDefects), StageLabel))
      == |OtherDefects(filteredDefects)| as real
  {
    var other := OtherDefects(filteredDefects);
    GroupBySizes(other, StageLabel);
    if name in KeysOf(other, StageLabel) {
      KeysOfMembers(other, StageLabel, name);
      var ks := MapKeys(other, StageLabel);
      var i :| 0 <= i < |ks| && ks[i] == name;
      GroupContainsAll(other, StageLabel, other[i]);
    }
  }

  // ===================================================== rework incidence

  /** The rework bottoms: the bottoms of the rework-stage records. */
  function ReworkBottoms(filteredDefects: seq<Row>): seq<Cell> {
    BottomSet(ReworkDefectData(filteredDefects))
  }

  /** A welder's unique bottoms in the main data. */
  function WelderBottoms(filtered: seq<Row>, w: string): seq<Cell> {
    BottomSet(Group(filtered, WelderKey, w))
  }

  /** getReworkData: per welder (in first-seen order) the number of their
      unique bottoms that were reworked, and the number of their unique
      bottoms; nothing at all when no defect records passed the filter. */
  method GetReworkData(filtered: seq<Row>, filteredDefects: seq<Row>)
    returns (labels: seq<string>, reworkCounts: seq<nat>, uniqueBottoms: seq<nat>)
    ensures filteredDefects == [] ==> labels == [] && reworkCounts == [] && uniqueBottoms == []
    ensures filteredDefects != [] ==> labels == KeysOf(filtered, WelderKey)
    ensures |reworkCounts| == |labels| && |uniqueBottoms| == |labels|
    ensures forall i :: 0 <= i < |labels| ==>
      && uniqueBottoms[i] == |WelderBottoms(filtered, labels[i])|
      && reworkCounts[i] == CountIn(WelderBottoms(filtered, labels[i]), ReworkBottoms(filteredDefects))
  {
    if filteredDefects == [] {
      return [], [], [];
    }
    var reworks := ReworkDefectData(filteredDefects);
    var reworkSet := CollectTruthy(reworks, BottomAt);
    assert reworkSet == ReworkBottoms(filteredDefects);
    var welderBottoms;
    labels, welderBottoms := FoldByKey(filtered, WelderKey, [], Adder(BottomAt));
    forall w | w in welderBottoms ensures welderBottoms[w] == WelderBottoms(filtered, w) {
      TruthySetIsFold(Group(filtered, WelderKey, w), BottomAt);
    }
    reworkCounts, uniqueBottoms := CountReworked(labels, welderBottoms, reworkSet);
  }

  /** The last loop of getReworkData: per welder, how many of their bottoms
      are in the rework set, and how many bottoms they have. */
  method CountReworked(labels: seq<string>, welderBottoms: map<string, seq<Cell>>, reworkSet: seq<Cell>)
    returns (reworkCounts: seq<nat>, uniqueBottoms: seq<nat>)
    requires forall w :: w in labels ==> w in welderBottoms
    ensures |reworkCounts| == |labels| && |uniqueBottoms| == |labels|
    ensures forall t :: 0 <= t < |labels| ==>
      && uniqueBottoms[t] == |welderBottoms[labels[t]]|
      && reworkCounts[t] == CountIn(welderBottoms[labels[t]], reworkSet)
  {
    reworkCounts, uniqueBottoms := [], [];
    var j := 0;
    while j < |labels|
      invariant 0 <= j <= |labels| && |reworkCounts| == j && |uniqueBottoms| == j
      invariant forall t :: 0 <= t < j ==>
        && uniqueBottoms[t] == |welderBottoms[labels[t]]|
        && reworkCounts[t] == CountIn(welderBottoms[labels[t]], reworkSet)
    {
      var bottoms := welderBottoms[labels[j]];
      var count := CountMembers(bottoms, reworkSet);
      reworkCounts := reworkCounts + [count];
      uniqueBottoms := uniqueBottoms + [|bottoms|];
      j := j + 1;
    }
  }

  /** `bottoms.forEach(b => { if (set.has(b)) count++; })` */
  method CountMembers(bottoms: seq<Cell>, marked: seq<Cell>) returns (count: nat)
    ensures count == CountIn(bottoms, marked)
    ensures count <= |bottoms|
  {
    count := 0;
    var k := 0;
    while k < |bottoms|
      invariant 0 <= k <= |bottoms|
      invariant count == CountIn(bottoms[..k], marked)
    {
      assert bottoms[..k + 1][..k] == bottoms[..k];
      if bottoms[k] in marked {
        count := count + 1;
      }
      k := k + 1;
    }
    assert bottoms[..k] == bottoms;
  }

  /** A welder never has more reworked bottoms than bottoms, and counts a
      bottom once however many of their operations touched it. */
  lemma ReworkCountBounded(filtered: seq<Row>, filteredDefects: seq<Row>, w: string)
    ensures CountIn(WelderBottoms(filtered, w), ReworkBottoms(filteredDefects)) <= |WelderBottoms(filtered, w)|
    ensures CountIn(WelderBottoms(filtered, w), ReworkBottoms(filteredDefects))
      == |set b | b in WelderBottoms(filtered, w) && b in ReworkBottoms(filteredDefects)|
  {
    BottomCountIsIntersection(Group(filtered, WelderKey, w), ReworkBottoms(filteredDefects));
  }

  // ======================================================== the defect rule

  /** The rule used when no defect sheet is loaded: `field operator value`. */
  datatype DefectRule = DefectRule(field: string, operator: string, value: Cell)

  /** `{ field: "ИТОГО проволока", operator: "=", value: 0 }` */
  const DefaultRule: DefectRule := DefectRule(WireColumn, "=", Num(0.0))

  /** The loose equality `val == rval` between a record's value (possibly
      undefined) and the rule's value: numbers by value, strings by content,
      and a string against a number through Number(string). */
  predicate LooseEquals(val: Option<Cell>, rval: Cell) {
    match (val, rval)
    case (None, _) => false
    case (Some(Str(a)), Str(b)) => a == b
    case (Some(Num(a)), Num(b)) => a == b
    case (Some(Num(a)), Str(b)) => NumberOf(b) == Some(a)
    case (Some(Str(a)), Num(b)) => NumberOf(a) == Some(b)
    case (Some(NaN), _) => false
    case (_, NaN) => false
  }

  /** evaluateDefect(row, rule) */
  predicate EvaluateDefect(row: Row, rule: DefectRule, spf: ParseFloatFn) {
    var val := Get(row, rule.field);
    if rule.operator == "=" then LooseEquals(val, rule.value)
    else if rule.operator == "!=" then !LooseEquals(val, rule.value)
    else if rule.operator == ">" then spf(val) > spf(Some(rule.value))
    else if rule.operator == "<" then spf(val) < spf(Some(rule.value))
    else false
  }

  /** `!=` is exactly the negation of `=`, `>` and `<` never hold together,
      and an unknown operator never marks a record. */
  lemma RuleOperators(row: Row, field: string, value: Cell, op: string, spf: ParseFloatFn)
    ensures EvaluateDefect(row, DefectRule(field, "!=", value), spf)
      <==> !EvaluateDefect(row, DefectRule(field, "=", value), spf)
    ensures !(EvaluateDefect(row, DefectRule(field, ">", value), spf)
           && EvaluateDefect(row, DefectRule(field, "<", value), spf))
    ensures op !in {"=", "!=", ">", "<"} ==> !EvaluateDefect(row, DefectRule(field, op, value), spf)
  {
  }

  /** With the default rule `ИТОГО проволока = 0`, a wire total of 0 marks
      the record as defective and a total of 5 does not; a blank cell is
      marked too (`"" == 0` holds in JavaScript), while a record without
      the column is not (`undefined == 0` does not). */
  lemma DefaultRuleExample(spf: ParseFloatFn)
    ensures EvaluateDefect(map[WireColumn := Num(0.0)], DefaultRule, spf)
    ensures !EvaluateDefect(map[WireColumn := Num(5.0)], DefaultRule, spf)
    ensures EvaluateDefect(map[WireColumn := Str("")], DefaultRule, spf)
    ensures !EvaluateDefect(map[], DefaultRule, spf)
  {
    assert Trim("") == "";
  }

  /** updateDefectRule: the value field's text is kept as text, except that
      numeric text with a '.' becomes its number. */
  function RuleValue(raw: string): (v: Cell)
    ensures v.Str? ==> v.s == Trim(raw)
    ensures v.Num? ==> '.' in Trim(raw) && NumberOf(Trim(raw)) == Some(v.n)
    ensures v.Num? <==> '.' in Trim(raw) && NumberOf(Trim(raw)).Some?
    ensures v.Str? || v.Num?
  {
    var t := Trim(raw);
    ContainsChar(t, '.');
    if NumberOf(t).None? then Str(t)
    else if Contains(t, ".") then
      ParseFloatAgrees(t);
      FloatCell(ParseFloat(t))
    else Str(t)
  }

  lemma ParseFloatAgrees(t: string)
    requires t == Trim(t) && NumberOf(t).Some? && Contains(t, ".")
    ensures ParseFloat(t) == NumberOf(t) && '.' in t
  {
    ContainsChar(t, '.');
    ParseFloatAgreesWithNumber(t);
  }
}
