/** How app.js reads a typed record: the columns it consults, the dates it
    splits out of text, the welder a record belongs to, and the sets of
    bottom numbers and shift dates it collects.  `safeParseFloat`, which
    app.js calls but does not define, is passed in as a function from an
    optional cell (a missing key is `undefined`) to a number. */
module Records {
  import opened JsText
  import opened Helpers
  import opened Parser

  const DateColumn: string := "Дата"
  const LengthColumn: string := "Длина сварных швов"
  const WireColumn: string := "ИТОГО проволока"
  const CuttingColumn: string := "Раскрой"
  const WireMaterialColumn: string := "Проволока"
  const DiameterColumn: string := "Диаметр"
  const ThicknessColumn: string := "Толщина"
  const WelderColumn: string := "welder_normalized"
  const UnknownWelder: string := "Неизвестно"
  const DefectDateColumn: string := "Дата выяв-ния несоответствия"
  const StageColumn: string := "Технологическая операция"

  /** window.safeParseFloat */
  type ParseFloatFn = Option<Cell> -> real

  /** The value of a column read through safeParseFloat. */
  function NumberAt(spf: ParseFloatFn, col: string): Row -> real {
    row => spf(Get(row, col))
  }

  /** safeParseFloat(row["Длина сварных швов"]) */
  function LengthFn(spf: ParseFloatFn): Row -> real {
    NumberAt(spf, LengthColumn)
  }

  /** `row[col]` when it is text that is not empty; the parser types every
      date column as text (Parser.DateColumnsAreText). */
  function TextAt(row: Row, col: string): (t: Option<string>)
    ensures t.Some? ==> t.value != ""
  {
    match Get(row, col)
    case Some(Str(s)) => if s != "" then Some(s) else None
    case _ => None
  }

  // ============================================================ dates

  /** The first three numbers of `split(".").map(Number)`. */
  datatype DayMonthYear = DMY(day: real, month: real, year: real)

  /** `const [day, month, year] = s.split(".").map(Number)` followed by
      `if (!day || !month || !year)`: the three numbers, when all of them
      are present and none is 0 or NaN. */
  function DateParts(s: string): (r: Option<DayMonthYear>)
    ensures r.Some? ==> r.value.day != 0.0 && r.value.month != 0.0 && r.value.year != 0.0
  {
    var parts := Split(s, '.');
    if |parts| < 3 then None
    else
      var d, m, y := NumberOf(parts[0]), NumberOf(parts[1]), NumberOf(parts[2]);
      if d.Some? && m.Some? && y.Some? && d.value != 0.0 && m.value != 0.0 && y.value != 0.0
      then Some(DMY(d.value, m.value, y.value))
      else None
  }

  /** The parts are whole numbers: they come from '.'-free text. */
  lemma DatePartsIntegral(s: string)
    requires DateParts(s).Some?
    ensures var p := DateParts(s).value;
      p.day == p.day.Floor as real && p.month == p.month.Floor as real && p.year == p.year.Floor as real
  {
    var parts := Split(s, '.');
    assert forall i, j :: 0 <= i < |parts| && 0 <= j < |parts[i]| ==> parts[i][j] != '.';
    assert '.' !in parts[0] && '.' !in parts[1] && '.' !in parts[2];
    DotFreeNumberIsIntegral(parts[0]);
    DotFreeNumberIsIntegral(parts[1]);
    DotFreeNumberIsIntegral(parts[2]);
  }

  /** `new Date(year, month - 1, day) < ...`, on (year, month, day). */
  predicate Earlier(a: DayMonthYear, b: DayMonthYear) {
    a.year < b.year
    || (a.year == b.year && a.month < b.month)
    || (a.year == b.year && a.month == b.month && a.day < b.day)
  }

  lemma EarlierIsStrictOrder(a: DayMonthYear, b: DayMonthYear, c: DayMonthYear)
    ensures !Earlier(a, a)
    ensures Earlier(a, b) ==> !Earlier(b, a)
    ensures Earlier(a, b) && Earlier(b, c) ==> Earlier(a, c)
    ensures a != b ==> Earlier(a, b) || Earlier(b, a)
  {
  }

  /** A date passes the bounds: neither before `from` nor after `to`,
      each bound counting only when its text splits into three truthy
      numbers. */
  predicate WithinBounds(d: DayMonthYear, from: Option<DayMonthYear>, to: Option<DayMonthYear>) {
    (from.None? || !Earlier(d, from.value)) && (to.None? || !Earlier(to.value, d))
  }

  /** The bound a filter text sets: none for blank text. */
  function Bound(text: string): Option<DayMonthYear> {
    if text == "" then None else DateParts(text)
  }

  // ========================================================== welders

  /** `row["welder_normalized"] || "Неизвестно"`, as an object key. */
  function WelderKey(row: Row): (w: string)
    ensures w != ""
    ensures !Truthy(Get(row, WelderColumn)) ==> w == UnknownWelder
    ensures forall s :: Get(row, WelderColumn) == Some(Str(s)) && s != "" ==> w == s
  {
    var v := Get(row, WelderColumn);
    if Truthy(v) then
      (match v.value
       case Str(s) => s
       case Num(n) => NumberTextNotEmpty(n); NumberText(n)
       case NaN => "NaN")
    else UnknownWelder
  }

  lemma RenderNotEmpty(x: real, k: nat)
    requires x >= 0.0 && k <= 20
    ensures Render(x, k) != ""
    decreases 20 - k
  {
    if k < 20 && x != x.Floor as real {
      RenderNotEmpty(x * 10.0, k + 1);
    }
  }

  lemma NumberTextNotEmpty(n: real)
    ensures NumberText(n) != ""
  {
    if n >= 0.0 {
      RenderNotEmpty(n, 0);
    }
  }

  // ================================================ insertion-ordered sets

  /** window.getBottomNumber(row) */
  function BottomAt(row: Row): Option<Cell> {
    Some(BottomNumber(row))
  }

  /** row["Дата"] */
  function DateAt(row: Row): Option<Cell> {
    Get(row, DateColumn)
  }

  /** `if (v) set.add(v)` over the rows: the truthy values picked from the
      rows, each once, in the order they were first seen. */
  function TruthySet(rows: seq<Row>, pick: Row -> Option<Cell>): (s: seq<Cell>)
    ensures NoDups(s) && |s| <= |rows|
  {
    if rows == [] then []
    else AddTruthy(TruthySet(rows[..|rows| - 1], pick), pick(rows[|rows| - 1]))
  }

  /** `if (v) set.add(v)` */
  function AddTruthy(s: seq<Cell>, v: Option<Cell>): (r: seq<Cell>)
    ensures NoDups(s) ==> NoDups(r)
    ensures |r| <= |s| + 1
  {
    if Truthy(v) then SetAdd(s, v.value) else s
  }

  lemma TruthySetStep(rows: seq<Row>, pick: Row -> Option<Cell>, row: Row)
    ensures TruthySet(rows + [row], pick) == AddTruthy(TruthySet(rows, pick), pick(row))
  {
    assert (rows + [row])[..|rows|] == rows;
  }

  lemma TruthySetPrefix(rows: seq<Row>, pick: Row -> Option<Cell>, i: nat)
    requires i < |rows|
    ensures TruthySet(rows[..i + 1], pick) == AddTruthy(TruthySet(rows[..i], pick), pick(rows[i]))
  {
    assert rows[..i + 1] == rows[..i] + [rows[i]];
    TruthySetStep(rows[..i], pick, rows[i]);
  }

  /** The loop that fills one such set. */
  method CollectTruthy(rows: seq<Row>, pick: Row -> Option<Cell>) returns (s: seq<Cell>)
    ensures s == TruthySet(rows, pick)
  {
    s := [];
    var i := 0;
    while i < |rows|
      invariant 0 <= i <= |rows| && s == TruthySet(rows[..i], pick)
    {
      TruthySetPrefix(rows, pick, i);
      s := AddTruthy(s, pick(rows[i]));
      i := i + 1;
    }
    assert rows[..i] == rows;
  }

  /** The set holds exactly the truthy values some row yields. */
  lemma {:induction false} TruthySetMembers(rows: seq<Row>, pick: Row -> Option<Cell>, c: Cell)
    ensures c in TruthySet(rows, pick) <==>
      exists i :: 0 <= i < |rows| && Truthy(pick(rows[i])) && pick(rows[i]).value == c
  {
    if rows != [] {
      var init := rows[..|rows| - 1];
      TruthySetMembers(init, pick, c);
      if exists i :: 0 <= i < |rows| && Truthy(pick(rows[i])) && pick(rows[i]).value == c {
        var i :| 0 <= i < |rows| && Truthy(pick(rows[i])) && pick(rows[i]).value == c;
        if i < |init| {
          assert init[i] == rows[i];
        }
      }
      if c in TruthySet(init, pick) {
        var i :| 0 <= i < |init| && Truthy(pick(init[i])) && pick(init[i]).value == c;
        assert rows[i] == init[i];
      }
    }
  }

  /** The bottoms of rows, each once (`new Set()` fed by `if (bottom)`). */
  function BottomSet(rows: seq<Row>): (s: seq<Cell>)
    ensures NoDups(s) && |s| <= |rows|
  {
    TruthySet(rows, BottomAt)
  }

  /** Counting the bottoms of a record set that appear in another set
      counts each bottom once, however many records carry it. */
  lemma BottomCountIsIntersection(rows: seq<Row>, marked: seq<Cell>)
    ensures CountIn(BottomSet(rows), marked) == |set b | b in BottomSet(rows) && b in marked|
    ensures CountIn(BottomSet(rows), marked) <= |rows|
  {
    CountInIsIntersection(BottomSet(rows), marked);
  }

  /** The step `if (v) set.add(v)` of the value picked from one row. */
  function Adder(pick: Row -> Option<Cell>): (seq<Cell>, Row) -> seq<Cell> {
    (s, row) => AddTruthy(s, pick(row))
  }

  /** The set is the fold of that step from the empty set. */
  lemma {:induction false} TruthySetIsFold(rows: seq<Row>, pick: Row -> Option<Cell>)
    ensures TruthySet(rows, pick) == FoldL(rows, [], Adder(pick))
  {
    if rows != [] {
      TruthySetIsFold(rows[..|rows| - 1], pick);
    }
  }
}
