/** parser.js: typing the cells of a CSV record by column name, welder-name
    normalisation, the column aliases for order and bottom numbers, and the
    set of "order_bottom" keys built from the defect sheet. */
module Parser {
  import opened JsText
  import opened Helpers

  // ====================================================== values, rows

  /** A JavaScript value held in a typed record: a string, a number, or the
      NaN that parseInt yields on integer columns such as ".5". */
  datatype Cell = Str(s: string) | Num(n: real) | NaN

  /** A typed record: column name to value; a missing key is `undefined`. */
  type Row = map<string, Cell>

  /** A record as the CSV reader hands it over: column name to raw text. */
  type RawRow = map<string, string>

  function Get(row: Row, key: string): Option<Cell> {
    if key in row then Some(row[key]) else None
  }

  /** JavaScript truthiness: undefined, "", 0 and NaN are falsy. */
  predicate Truthy(c: Option<Cell>) {
    match c
    case None => false
    case Some(Str(s)) => s != ""
    case Some(Num(n)) => n != 0.0
    case Some(NaN) => false
  }

  /** String(value) */
  function CellText(c: Cell): string {
    match c
    case Str(s) => s
    case Num(n) => NumberText(n)
    case NaN => "NaN"
  }

  /** `String(value).trim()`, stated per kind of value: number texts carry
      no whitespace, so only strings are trimmed. */
  function KeyText(c: Cell): string {
    match c
    case Str(s) => Trim(s)
    case Num(n) => NumberText(n)
    case NaN => "NaN"
  }

  lemma KeyTextIsTrimmedText(c: Cell)
    ensures KeyText(c) == Trim(CellText(c))
  {
    match c
    case Str(s) =>
    case Num(n) => NumberTextNoSpace(n); TrimNoSpace(NumberText(n));
    case NaN => TrimNoSpace("NaN");
  }

  /** `row[a0] || row[a1] || ... || ""`: the first truthy alias, else "". */
  function FirstTruthy(row: Row, aliases: seq<string>): Cell {
    if aliases == [] then Str("")
    else if Truthy(Get(row, aliases[0])) then row[aliases[0]]
    else FirstTruthy(row, aliases[1..])
  }

  /** `aliases[i]` is set in `row` and no earlier alias is. */
  predicate FirstSetAlias(row: Row, aliases: seq<string>, i: int) {
    0 <= i < |aliases| && Truthy(Get(row, aliases[i]))
    && forall j :: 0 <= j < i ==> !Truthy(Get(row, aliases[j]))
  }

  /** The value chosen is the first truthy alias in priority order, and ""
      when no alias is set. */
  lemma {:induction false} FirstTruthyChoice(row: Row, aliases: seq<string>)
    ensures Truthy(Some(FirstTruthy(row, aliases))) || FirstTruthy(row, aliases) == Str("")
    ensures (forall i :: 0 <= i < |aliases| ==> !Truthy(Get(row, aliases[i])))
      ==> FirstTruthy(row, aliases) == Str("")
    ensures forall i :: FirstSetAlias(row, aliases, i) ==> FirstTruthy(row, aliases) == row[aliases[i]]
  {
    if aliases != [] && !Truthy(Get(row, aliases[0])) {
      FirstTruthyChoice(row, aliases[1..]);
      assert forall i :: 1 <= i < |aliases| ==> aliases[i] == aliases[1..][i - 1];
    }
  }

  const OrderAliases: seq<string> := ["Номер заказа", "№Заказа", "Заказ"]

  const BottomAliases: seq<string> :=
    ["№ Днища, № чертежа, артикул", "№Днища", "№ Днища", "Номер днища", "Номер Днища"]

  /** getOrderNumber */
  function OrderNumber(row: Row): Cell {
    FirstTruthy(row, OrderAliases)
  }

  /** getBottomNumber */
  function BottomNumber(row: Row): Cell {
    FirstTruthy(row, BottomAliases)
  }

  // ======================================================= cell typing

  const StringFields: seq<string> := [
    "Заказ", "№Заказа", "Номер заказа", "Заказчик", "Сварщик", "ФИО",
    "ФИО сварщика", "Тип днища", "Дата", "№Днища", "№ Днища",
    "№ Днища, № чертежа, артикул", "Номер днища", "Номер Днища", "Материал",
    "Вид контроля", "Вид дефекта", "Описание несоответствия",
    "№ акта о несоответствии", "Исполнитель", "Причина несоответствия",
    "Способ устранения", "Контроль выполнил", "Раскрой"
  ]

  const IntegerFields: seq<string> := [
    "Месяц", "Днище", "Толщина", "Диаметр", "Количество выявленных дефектов",
    "Номер днища", "Номер Днища"
  ]

  /** The column name contains one of the listed names, ignoring case. */
  predicate MatchesField(key: string, fields: seq<string>) {
    exists i :: 0 <= i < |fields| && Contains(ToLower(key), ToLower(fields[i]))
  }

  lemma MatchesListedField(key: string, fields: seq<string>, i: nat)
    requires i < |fields| && fields[i] == key
    ensures MatchesField(key, fields)
  {
    var k := ToLower(key);
    assert k[0..|k|] == k;
    ContainsAt(k, k, 0);
  }

  /** `Number(val)` is not NaN. */
  predicate IsNumeric(val: string) {
    NumberOf(val).Some?
  }

  /** The value parseFloat returns for text Number accepts. */
  function FloatCell(v: Option<real>): Cell {
    if v.Some? then Num(v.value) else NaN
  }

  const WeldLengthColumn: string := "длина сварных швов"

  /** The typed value of one raw cell; `weldSheet` selects the welding
      sheet, where weld lengths are converted from millimetres to metres. */
  function TypeCell(key: string, raw: string, weldSheet: bool): Cell {
    var val := Trim(raw);
    if MatchesField(key, StringFields) then Str(val)
    else if MatchesField(key, IntegerFields) && val != "" && IsNumeric(val) then IntegerCell(val)
    else ValueCell(val, weldSheet && Contains(ToLower(key), WeldLengthColumn))
  }

  /** `parseInt(val, 10)` */
  function IntegerCell(val: string): Cell {
    var v := ParseInt(val);
    if v.Some? then Num(v.value as real) else NaN
  }

  /** The branches after the column-name checks: a decimal comma, a plain
      number (read as millimetres and stored in metres when `millimetres`),
      or else the text itself. */
  function ValueCell(val: string, millimetres: bool): Cell {
    var comma := ReplaceFirst(val, ',', '.');
    if Contains(val, ",") && IsNumeric(comma) then FloatCell(ParseFloat(comma))
    else if val != "" && IsNumeric(val) then
      if millimetres
      then (if ParseFloat(val).Some? then Num(ParseFloat(val).value / 1000.0) else NaN)
      else FloatCell(ParseFloat(val))
    else Str(val)
  }

  lemma TrimTwice(raw: string)
    ensures Trim(Trim(raw)) == Trim(raw)
  {
    if Trim(raw) != [] {
      TrimmedEnds(Trim(raw));
    }
  }

  /** Replacing the first comma of trimmed text by a point keeps it trimmed. */
  lemma CommaReplacedTrimmed(val: string)
    requires val == Trim(val) && ',' in val
    ensures ReplaceFirst(val, ',', '.') != []
    ensures Trim(ReplaceFirst(val, ',', '.')) == ReplaceFirst(val, ',', '.')
  {
    var comma := ReplaceFirst(val, ',', '.');
    var k := IndexOf(val, ',');
    assert k < |val|;
    assert comma[0] == (if k == 0 then '.' else val[0]);
    assert comma[|comma| - 1] == (if k == |val| - 1 then '.' else val[|val| - 1]);
    TrimmedEnds(comma);
  }

  /** On trimmed text the value branches never give NaN, and text is kept
      unchanged. */
  lemma ValueCellKinds(val: string, millimetres: bool)
    requires val == Trim(val)
    ensures ValueCell(val, millimetres).Str? ==> ValueCell(val, millimetres).s == val
    ensures !ValueCell(val, millimetres).NaN?
  {
    if val != [] {
      if IsNumeric(val) {
        ParseFloatAgreesWithNumber(val);
      }
      ContainsChar(val, ',');
      if ',' in val {
        CommaReplacedTrimmed(val);
        var comma := ReplaceFirst(val, ',', '.');
        if IsNumeric(comma) {
          ParseFloatAgreesWithNumber(comma);
        }
      }
    }
  }

  /** Text is always stored trimmed, and NaN only arises in integer
      columns (parseInt of text such as ".5" that Number accepts). */
  lemma TypeCellKinds(key: string, raw: string, weldSheet: bool)
    ensures TypeCell(key, raw, weldSheet).Str? ==> TypeCell(key, raw, weldSheet).s == Trim(raw)
    ensures TypeCell(key, raw, weldSheet).NaN? ==>
      MatchesField(key, IntegerFields) && !MatchesField(key, StringFields)
  {
    TrimTwice(raw);
    ValueCellKinds(Trim(raw), weldSheet && Contains(ToLower(key), WeldLengthColumn));
  }

  /** A column named in both lists, such as "Номер днища", stays text: the
      string check comes first. */
  lemma BottomNumberColumnStaysText(raw: string, weldSheet: bool)
    ensures MatchesField("Номер днища", StringFields) && MatchesField("Номер днища", IntegerFields)
    ensures TypeCell("Номер днища", raw, weldSheet) == Str(Trim(raw))
  {
    BottomNumberListedTwice();
  }

  lemma BottomNumberListedTwice()
    ensures MatchesField("Номер днища", StringFields) && MatchesField("Номер днища", IntegerFields)
  {
    MatchesListedField("Номер днища", StringFields, 12);
    MatchesListedField("Номер днища", IntegerFields, 5);
  }

  /** Integer columns holding integer text become that number. */
  lemma IntegerColumnIsParsed(key: string, raw: string, weldSheet: bool)
    requires !MatchesField(key, StringFields) && MatchesField(key, IntegerFields)
    requires Trim(raw) != "" && '.' !in Trim(raw) && IsNumeric(Trim(raw))
    ensures TypeCell(key, raw, weldSheet) == Num(NumberOf(Trim(raw)).value)
  {
    TrimTwice(raw);
    ParseIntAgreesWithNumber(Trim(raw));
  }

  /** On the welding sheet a plain number in the weld-length column is read
      as millimetres and stored in metres; elsewhere it is kept as is. */
  lemma WeldLengthInMetres(key: string, raw: string)
    requires !MatchesField(key, StringFields) && !MatchesField(key, IntegerFields)
    requires Contains(ToLower(key), WeldLengthColumn)
    requires Trim(raw) != "" && ',' !in Trim(raw) && IsNumeric(Trim(raw))
    ensures TypeCell(key, raw, true) == Num(NumberOf(Trim(raw)).value / 1000.0)
    ensures TypeCell(key, raw, false) == Num(NumberOf(Trim(raw)).value)
  {
    var val := Trim(raw);
    TrimTwice(raw);
    PlainNumberCell(val);
    ValueColumnCell(key, raw, true);
    assert TypeCell(key, raw, true) == ValueCell(val, true);
    ValueColumnCell(key, raw, false);
    assert TypeCell(key, raw, false) == ValueCell(val, false);
  }

  /** Outside the string and integer columns a cell is read by ValueCell. */
  lemma ValueColumnCell(key: string, raw: string, weldSheet: bool)
    requires !MatchesField(key, StringFields) && !MatchesField(key, IntegerFields)
    ensures TypeCell(key, raw, weldSheet) == ValueCell(Trim(raw), weldSheet && Contains(ToLower(key), WeldLengthColumn))
  {
  }

  /** The plain-number branch of ValueCell on trimmed comma-free text. */
  lemma PlainNumberCell(val: string)
    requires val == Trim(val) && val != "" && ',' !in val && IsNumeric(val)
    ensures ValueCell(val, true) == Num(NumberOf(val).value / 1000.0)
    ensures ValueCell(val, false) == Num(NumberOf(val).value)
  {
    ContainsChar(val, ',');
    ParseFloatAgreesWithNumber(val);
  }

  /** A decimal comma is caught by the comma branch first, so its value is
      not divided by 1000 even in the weld-length column. */
  lemma CommaDecimalNotScaled(key: string, raw: string, weldSheet: bool)
    requires !MatchesField(key, StringFields) && !MatchesField(key, IntegerFields)
    requires ',' in Trim(raw) && IsNumeric(ReplaceFirst(Trim(raw), ',', '.'))
    ensures TypeCell(key, raw, weldSheet) == Num(NumberOf(ReplaceFirst(Trim(raw), ',', '.')).value)
  {
    var val := Trim(raw);
    TrimTwice(raw);
    ContainsChar(val, ',');
    CommaReplacedTrimmed(val);
    ParseFloatAgreesWithNumber(ReplaceFirst(val, ',', '.'));
  }

  lemma NumberOfMillimetres()
    ensures Trim("1500") == "1500" && ',' !in "1500"
    ensures NumberOf("1500") == Some(1500.0)
  {
    TrimmedEnds("1500");
    UnsignedOf1500();
  }

  lemma UnsignedOf1500()
    ensures UnsignedDecimal("1500") == Some(1500.0)
  {
    assert IndexOf("1500", '.') == 4;
    assert "1500"[..4] == "1500";
    DigitsOf1500();
  }

  lemma DigitsOf1500()
    ensures AllDigits("1500") && DigitsValue("1500") == 1500
  {
    assert "1500"[..3] == "150" && "150"[..2] == "15" && "15"[..1] == "1";
  }

  lemma NumberOfCommaMetres()
    ensures Trim("1,5") == "1,5" && ',' in "1,5"
    ensures ReplaceFirst("1,5", ',', '.') == "1.5"
    ensures NumberOf("1.5") == Some(1.5)
  {
    TrimmedEnds("1,5");
    assert IndexOf("1,5", ',') == 1;
    TrimmedEnds("1.5");
    UnsignedOfOnePointFive();
  }

  lemma UnsignedOfOnePointFive()
    ensures UnsignedDecimal("1.5") == Some(1.5)
  {
    assert IndexOf("1.5", '.') == 1;
    assert "1.5"[..1] == "1" && "1.5"[2..] == "5";
    assert DecimalValue("1", "5") == 1.5;
  }

  /** The two forms of one weld length: "1500" (millimetres) and "1,5". */
  lemma WeldLengthExample(key: string)
    requires !MatchesField(key, StringFields) && !MatchesField(key, IntegerFields)
    requires Contains(ToLower(key), WeldLengthColumn)
    ensures TypeCell(key, "1500", true) == Num(1.5)
    ensures TypeCell(key, "1,5", true) == Num(1.5)
  {
    NumberOfMillimetres();
    WeldLengthInMetres(key, "1500");
    NumberOfCommaMetres();
    CommaDecimalNotScaled(key, "1,5", true);
  }

  /** A blank cell, or text that is no number, is kept as the trimmed text. */
  lemma NonNumericKeptAsText(key: string, raw: string, weldSheet: bool)
    requires !IsNumeric(Trim(raw)) || Trim(raw) == ""
    requires !IsNumeric(ReplaceFirst(Trim(raw), ',', '.')) || ',' !in Trim(raw)
    ensures TypeCell(key, raw, weldSheet) == Str(Trim(raw))
  {
    ContainsChar(Trim(raw), ',');
  }

  /** Both date columns, "Дата" on the welding sheet and the detection
      date on the defect sheet, are string columns: their cells stay text. */
  lemma DateColumnsAreText(raw: string, weldSheet: bool)
    ensures TypeCell("Дата", raw, weldSheet) == Str(Trim(raw))
    ensures TypeCell("Дата выяв-ния несоответствия", raw, weldSheet) == Str(Trim(raw))
  {
    DateColumnIsText();
    DefectDateColumnIsText();
  }

  lemma DateColumnIsText()
    ensures MatchesField("Дата", StringFields)
  {
    MatchesListedField("Дата", StringFields, 8);
  }

  lemma DefectDateColumnIsText()
    ensures MatchesField("Дата выяв-ния несоответствия", StringFields)
  {
    MatchesFieldPrefix("Дата выяв-ния несоответствия", StringFields, 8);
  }

  // ================================================ welder-name normalising

  predicate IsNameMark(c: char) {
    c == '.' || c == ',' || IsDigit(c)
  }

  /** `split(/\s+/)[0]` of a string that does not start with whitespace. */
  function FirstWord(s: string): (w: string)
    ensures NoSpace(w) && |w| <= |s| && w == s[..|w|]
    ensures |w| < |s| ==> IsSpace(s[|w|])
  {
    if s == [] || IsSpace(s[0]) then [] else [s[0]] + FirstWord(s[1..])
  }

  /** `replace(/[.,0-9]/g, "")` */
  function DropMarks(s: string): (r: string)
    ensures forall i :: 0 <= i < |r| ==> !IsNameMark(r[i]) && r[i] in s
    ensures (forall i :: 0 <= i < |s| ==> !IsNameMark(s[i])) ==> r == s
  {
    if s == [] then []
    else
      var rest := DropMarks(s[1..]);
      if IsNameMark(s[0]) then rest else [s[0]] + rest
  }

  /** normalizeWelderName: the first word, without dots, commas and digits. */
  function NormalizeWelderName(raw: string): (r: string)
    ensures NoSpace(r)
    ensures forall i :: 0 <= i < |r| ==> !IsNameMark(r[i]) && r[i] in raw
  {
    if raw == "" then ""
    else
      var word := DropMarks(FirstWord(Trim(raw)));
      TrimNoSpace(word);
      Trim(word)
  }

  lemma {:induction false} FirstWordOfWord(s: string)
    requires NoSpace(s)
    ensures FirstWord(s) == s
  {
    if s != [] {
      FirstWordOfWord(s[1..]);
    }
  }

  /** Normalising a normalised name changes nothing. */
  lemma NormalizeWelderNameIdempotent(raw: string)
    ensures NormalizeWelderName(NormalizeWelderName(raw)) == NormalizeWelderName(raw)
  {
    var n := NormalizeWelderName(raw);
    if n != "" {
      TrimNoSpace(n);
      FirstWordOfWord(n);
    }
  }

  /** The first word ends at the first whitespace character of any kind. */
  lemma {:induction false} FirstWordUpToSpace(w: string, rest: string)
    requires NoSpace(w)
    requires rest == [] || IsSpace(rest[0])
    ensures FirstWord(w + rest) == w
  {
    if w != [] {
      assert (w + rest)[1..] == w[1..] + rest;
      FirstWordUpToSpace(w[1..], rest);
    }
  }

  /**
   * A surname followed by initials after any whitespace character (a
   * no-break space as much as a plain one) normalises to the surname.
   */
  lemma NameBeforeSpace(name: string, sep: char, initials: string)
    requires name != [] && NoSpace(name)
    requires forall i :: 0 <= i < |name| ==> !IsNameMark(name[i])
    requires IsSpace(sep)
    ensures NormalizeWelderName(name + [sep] + initials) == name
  {
    var raw := name + [sep] + initials;
    var t := Trim(raw);
    assert LeadingSpaces(raw) == 0 by { assert raw[0] == name[0]; }
    assert |t| >= |name| by { assert raw[|name| - 1] == name[|name| - 1]; }
    assert t == name + t[|name|..];
    assert |t| > |name| ==> t[|name|] == sep by { assert raw[|name|] == sep; }
    FirstWordUpToSpace(name, t[|name|..]);
    TrimNoSpace(name);
  }

  /** A blank name normalises to "". */
  lemma NormalizeBlankName(raw: string)
    requires forall i :: 0 <= i < |raw| ==> IsSpace(raw[i])
    ensures NormalizeWelderName(raw) == ""
  {
    IsEmptyIffBlank(raw);
  }

  // ===================================================== typed records

  /** The column that receives the normalised name of the person on a sheet. */
  function NameColumn(weldSheet: bool): string {
    if weldSheet then "welder_normalized" else "executor_normalized"
  }

  function NameAliases(weldSheet: bool): seq<string> {
    if weldSheet then ["Сварщик", "ФИО", "ФИО сварщика"]
    else ["Исполнитель, допустивший несоответствие"]
  }

  /** Every raw cell typed by its column name. */
  function TypedCells(raw: RawRow, weldSheet: bool): map<string, Cell> {
    map k | k in raw :: TypeCell(k, raw[k], weldSheet)
  }

  /** The trimmed text of the first of `aliases` whose trimmed raw text is
      not empty, and "" when there is none. */
  function FirstNonBlank(raw: RawRow, aliases: seq<string>): (t: string)
    ensures t == "" || exists i :: 0 <= i < |aliases| && aliases[i] in raw && t == Trim(raw[aliases[i]])
  {
    if aliases == [] then ""
    else if aliases[0] in raw && Trim(raw[aliases[0]]) != "" then Trim(raw[aliases[0]])
    else FirstNonBlank(raw, aliases[1..])
  }

  /** A typed record: every raw cell typed, plus the normalised name of the
      person, taken from the first name column that is not blank. */
  function TypedRow(raw: RawRow, weldSheet: bool): Row {
    TypedCells(raw, weldSheet)[NameColumn(weldSheet) := Str(NormalizeWelderName(FirstNonBlank(raw, NameAliases(weldSheet))))]
  }

  /** The key set of a typed record and the value under each raw column. */
  lemma TypedRowCells(raw: RawRow, weldSheet: bool, k: string)
    ensures TypedRow(raw, weldSheet).Keys == raw.Keys + {NameColumn(weldSheet)}
    ensures k in raw && k != NameColumn(weldSheet) ==>
      TypedRow(raw, weldSheet)[k] == TypeCell(k, raw[k], weldSheet)
  {
  }

  /** `key.toLowerCase().includes(f.toLowerCase())` holds when `key` starts
      with the field name `f`. */
  lemma MatchesFieldPrefix(key: string, fields: seq<string>, i: nat)
    requires i < |fields| && |fields[i]| <= |key| && key[..|fields[i]|] == fields[i]
    ensures MatchesField(key, fields)
  {
    var k := ToLower(key);
    var f := ToLower(fields[i]);
    assert k[0..|f|] == f;
    ContainsAt(k, f, 0);
  }

  /** Every column in `aliases` is a string column. */
  predicate AllTextColumns(aliases: seq<string>) {
    aliases == [] || (MatchesField(aliases[0], StringFields) && AllTextColumns(aliases[1..]))
  }

  lemma WelderColumnIsText()
    ensures MatchesField("Сварщик", StringFields)
  {
    MatchesListedField("Сварщик", StringFields, 4);
  }

  lemma FioColumnIsText()
    ensures MatchesField("ФИО", StringFields)
  {
    MatchesListedField("ФИО", StringFields, 5);
  }

  lemma WelderFioColumnIsText()
    ensures MatchesField("ФИО сварщика", StringFields)
  {
    MatchesListedField("ФИО сварщика", StringFields, 6);
  }

  lemma WelderColumnsAreText()
    ensures AllTextColumns(NameAliases(true))
  {
    WelderColumnIsText();
    FioColumnIsText();
    WelderFioColumnIsText();
  }

  lemma ExecutorColumnIsText()
    ensures AllTextColumns(NameAliases(false))
  {
    ExecutorMatches();
  }

  lemma ExecutorMatches()
    ensures MatchesField("Исполнитель, допустивший несоответствие", StringFields)
  {
    MatchesFieldPrefix("Исполнитель, допустивший несоответствие", StringFields, 19);
  }

  /** The name columns of both sheets are string columns. */
  lemma NameColumnsAreText(weldSheet: bool)
    ensures AllTextColumns(NameAliases(weldSheet))
  {
    if weldSheet {
      WelderColumnsAreText();
    } else {
      ExecutorColumnIsText();
    }
  }

  /** On typed string columns, `||` over the aliases picks the same text as
      the first non-blank raw cell. */
  lemma {:induction false} FirstTruthyOfTextColumns(raw: RawRow, weldSheet: bool, aliases: seq<string>)
    requires AllTextColumns(aliases)
    ensures CellText(FirstTruthy(TypedCells(raw, weldSheet), aliases)) == FirstNonBlank(raw, aliases)
  {
    if aliases != [] {
      FirstTruthyOfTextColumns(raw, weldSheet, aliases[1..]);
    }
  }

  /** The first alias whose trimmed text is not blank is the one chosen. */
  lemma {:induction false} FirstNonBlankChoice(raw: RawRow, aliases: seq<string>, i: nat)
    requires i < |aliases| && aliases[i] in raw && Trim(raw[aliases[i]]) != ""
    requires forall j :: 0 <= j < i ==> aliases[j] !in raw || Trim(raw[aliases[j]]) == ""
    ensures FirstNonBlank(raw, aliases) == Trim(raw[aliases[i]])
  {
    if i > 0 {
      assert forall j :: 0 <= j < i - 1 ==> aliases[1..][j] == aliases[j + 1];
      FirstNonBlankChoice(raw, aliases[1..], i - 1);
    }
  }

  /** With every name column blank or missing, the name is "". */
  lemma {:induction false} FirstNonBlankNone(raw: RawRow, aliases: seq<string>)
    requires forall j :: 0 <= j < |aliases| ==> aliases[j] !in raw || Trim(raw[aliases[j]]) == ""
    ensures FirstNonBlank(raw, aliases) == ""
  {
    if aliases != [] {
      assert forall j :: 0 <= j < |aliases| - 1 ==> aliases[1..][j] == aliases[j + 1];
      FirstNonBlankNone(raw, aliases[1..]);
    }
  }

  /** The welder of a welding record is the normalised form of the first of
      Сварщик / ФИО / ФИО сварщика whose trimmed text is not empty. */
  lemma WelderFromFirstNameColumn(raw: RawRow, i: nat)
    requires i < 3
    requires var a := NameAliases(true)[i]; a in raw && Trim(raw[a]) != ""
    requires forall j :: 0 <= j < i ==> var a := NameAliases(true)[j]; a !in raw || Trim(raw[a]) == ""
    ensures TypedRow(raw, true)["welder_normalized"] == Str(NormalizeWelderName(Trim(raw[NameAliases(true)[i]])))
  {
    FirstNonBlankChoice(raw, NameAliases(true), i);
  }

  /** `Object.keys(row).forEach(...)`: typing the cells of one record. */
  method TypeCells(raw: RawRow, weldSheet: bool) returns (row: Row)
    ensures row == TypedCells(raw, weldSheet)
  {
    row := map[];
    var pending := raw.Keys;
    while pending != {}
      invariant pending <= raw.Keys
      invariant row.Keys == raw.Keys - pending
      invariant forall k :: k in row ==> row[k] == TypeCell(k, raw[k], weldSheet)
      decreases |pending|
    {
      var k :| k in pending;
      row := row[k := TypeCell(k, raw[k], weldSheet)];
      pending := pending - {k};
    }
  }

  /** Typing one record: its cells, then the normalised name. */
  method TypeRow(raw: RawRow, weldSheet: bool) returns (row: Row)
    ensures row == TypedRow(raw, weldSheet)
  {
    row := TypeCells(raw, weldSheet);
    var name := FirstTruthy(row, NameAliases(weldSheet));
    NameColumnsAreText(weldSheet);
    FirstTruthyOfTextColumns(raw, weldSheet, NameAliases(weldSheet));
    row := row[NameColumn(weldSheet) := Str(NormalizeWelderName(CellText(name)))];
  }

  /** `result.data.map(...)`: typing every record of a sheet. */
  method TypeRows(raws: seq<RawRow>, weldSheet: bool) returns (rows: seq<Row>)
    ensures |rows| == |raws|
    ensures forall i :: 0 <= i < |raws| ==> rows[i] == TypedRow(raws[i], weldSheet)
  {
    rows := [];
    var i := 0;
    while i < |raws|
      invariant 0 <= i <= |raws| && |rows| == i
      invariant forall j :: 0 <= j < i ==> rows[j] == TypedRow(raws[j], weldSheet)
    {
      var row := TypeRow(raws[i], weldSheet);
      rows := rows + [row];
      i := i + 1;
    }
  }

  // ====================================================== defect keys

  /** The trimmed order and bottom numbers of a record, when both are set. */
  function LinkPair(row: Row): Option<(string, string)> {
    var order := KeyText(OrderNumber(row));
    var bottom := KeyText(BottomNumber(row));
    if order != "" && bottom != "" then Some((order, bottom)) else None
  }

  /** The `${order}_${bottom}` key of a record, when both parts are set. */
  function LinkKey(row: Row): (k: Option<string>)
    ensures k.Some? <==> LinkPair(row).Some?
    ensures k.Some? ==> k.value == LinkPair(row).value.0 + "_" + LinkPair(row).value.1
  {
    var p := LinkPair(row);
    if p.Some? then Some(p.value.0 + "_" + p.value.1) else None
  }

  /** The defectMap a list of defect records produces. */
  function DefectKeys(defects: seq<Row>): (keys: seq<string>)
    ensures NoDups(keys)
  {
    if defects == [] then []
    else
      var keys := DefectKeys(defects[..|defects| - 1]);
      var k := LinkKey(defects[|defects| - 1]);
      if k.Some? then SetAdd(keys, k.value) else keys
  }

  /** defectMap holds exactly the keys of the defect records that have both
      an order and a bottom number, whatever their stage. */
  lemma DefectKeysExactly(defects: seq<Row>, key: string)
    ensures key in DefectKeys(defects) <==>
      exists i :: 0 <= i < |defects| && LinkKey(defects[i]) == Some(key)
  {
    DefectKeysAreSomeKeys(defects);
    SomeKeysMembers(defects, LinkKey, key);
  }

  lemma {:induction false} DefectKeysAreSomeKeys(defects: seq<Row>)
    ensures DefectKeys(defects) == SomeKeys(defects, LinkKey)
  {
    if defects != [] {
      DefectKeysAreSomeKeys(defects[..|defects| - 1]);
    }
  }

  /** The (order, bottom) pair of every defect record, in order. */
  function LinkPairs(defects: seq<Row>): (ps: seq<Option<(string, string)>>)
    ensures |ps| == |defects|
  {
    if defects == [] then [] else LinkPairs(defects[..|defects| - 1]) + [LinkPair(defects[|defects| - 1])]
  }

  lemma {:induction false} LinkPairsAt(defects: seq<Row>, i: nat)
    requires i < |defects|
    ensures LinkPairs(defects)[i] == LinkPair(defects[i])
  {
    if i < |defects| - 1 {
      LinkPairsAt(defects[..|defects| - 1], i);
    }
  }

  /** The corrected membership test: a defect record with the same pair. */
  function PairIn(pair: (string, string), defects: seq<Row>): (r: bool)
    ensures r <==> exists i :: 0 <= i < |defects| && LinkPair(defects[i]) == Some(pair)
  {
    forall i | 0 <= i < |defects| {
      LinkPairsAt(defects, i);
    }
    Some(pair) in LinkPairs(defects)
  }

  /** A record holding just an order number and a bottom number, both
      trimmed text, links by exactly that pair. */
  lemma LinkPairOfTexts(order: string, bottom: string)
    requires order != [] && !IsSpace(order[0]) && !IsSpace(order[|order| - 1])
    requires bottom != [] && !IsSpace(bottom[0]) && !IsSpace(bottom[|bottom| - 1])
    ensures LinkPair(map["Номер заказа" := Str(order), "№Днища" := Str(bottom)]) == Some((order, bottom))
  {
    var row := map["Номер заказа" := Str(order), "№Днища" := Str(bottom)];
    assert OrderNumber(row) == Str(order);
    var first := BottomAliases[0];
    assert |first| == 27 && |"Номер заказа"| == 12 && |"№Днища"| == 6;
    assert first !in row;
    assert !Truthy(Get(row, first));
    assert BottomAliases[1..][0] == "№Днища";
    assert Truthy(Get(row, "№Днища"));
    assert BottomNumber(row) == FirstTruthy(row, BottomAliases[1..]);
    assert BottomNumber(row) == Str(bottom);
    TrimmedEnds(order);
    TrimmedEnds(bottom);
  }

  /** A defect on order "12_3", bottom "4". */
  const CollidingDefect: Row := map["Номер заказа" := Str("12_3"), "№Днища" := Str("4")]

  /** An operation on order "12", bottom "3_4". */
  const CollidingOperation: Row := map["Номер заказа" := Str("12"), "№Днища" := Str("3_4")]

  lemma CollidingDefectPair()
    ensures LinkPair(CollidingDefect) == Some(("12_3", "4"))
  {
    LinkPairOfTexts("12_3", "4");
  }

  lemma CollidingOperationPair()
    ensures LinkPair(CollidingOperation) == Some(("12", "3_4"))
  {
    LinkPairOfTexts("12", "3_4");
  }

  lemma CollidingJoins()
    ensures "12_3" + "_" + "4" == "12" + "_" + "3_4"
  {
    assert "12_3" + "_" + "4" == "12_3_4";
    assert "12" + "_" + "3_4" == "12_3_4";
  }

  /** The "_" join is ambiguous: an operation on order "12", bottom "3_4"
      gets the key of a defect on order "12_3", bottom "4". */
  lemma DefectKeyCollision()
    ensures LinkKey(CollidingOperation).Some?
    ensures LinkKey(CollidingOperation).value in DefectKeys([CollidingDefect])
    ensures !PairIn(LinkPair(CollidingOperation).value, [CollidingDefect])
  {
    CollidingDefectPair();
    CollidingOperationPair();
    CollidingJoins();
    assert LinkKey(CollidingDefect) == LinkKey(CollidingOperation);
    DefectKeysSingle(CollidingDefect);
    assert LinkPair(CollidingDefect) != LinkPair(CollidingOperation) by {
      assert |"12_3"| != |"12"|;
    }
  }

  lemma DefectKeysSingle(defect: Row)
    ensures LinkKey(defect).Some? ==> DefectKeys([defect]) == [LinkKey(defect).value]
  {
    assert [defect][..0] == [];
    assert [defect][0] == defect;
  }

  // ============================================== the loaded defect sheet

  /** The defect sheet as parser.js holds it: the typed records, their
      column names, and the set of "order_bottom" keys. */
  class DefectStore {
    var defectData: seq<Row>
    var defectHeaders: seq<string>
    var defectMap: seq<string>

    ghost predicate Valid()
      reads this
    {
      defectMap == DefectKeys(defectData)
    }

    constructor()
      ensures Valid() && defectData == [] && defectHeaders == []
    {
      defectData, defectHeaders, defectMap := [], [], [];
    }

    /** parseDefectData: an empty sheet leaves everything as it was;
        otherwise the records are typed and defectMap is cleared and
        refilled from them. */
    method LoadDefects(raws: seq<RawRow>, fields: seq<string>)
      requires Valid()
      modifies this
      ensures Valid()
      ensures raws == [] ==> defectData == old(defectData) && defectHeaders == old(defectHeaders)
      ensures raws != [] ==> defectHeaders == fields && |defectData| == |raws|
      ensures raws != [] ==> forall i :: 0 <= i < |raws| ==> defectData[i] == TypedRow(raws[i], false)
    {
      if raws == [] {
        return;
      }
      var rows := TypeRows(raws, false);
      defectData := rows;
      defectHeaders := fields;
      defectMap := [];
      var i := 0;
      while i < |rows|
        invariant 0 <= i <= |rows|
        invariant defectData == rows && defectHeaders == fields
        invariant defectMap == DefectKeys(rows[..i])
      {
        assert rows[..i + 1][..i] == rows[..i];
        var key := LinkKey(rows[i]);
        if key.Some? {
          defectMap := SetAdd(defectMap, key.value);
        }
        i := i + 1;
      }
      assert rows[..i] == rows;
    }

    /** isDefective: the record's "order_bottom" key is in defectMap. */
    function IsDefective(row: Row): (r: bool)
      reads this
      requires Valid()
      ensures LinkPair(row).None? ==> !r
      ensures r <==> (LinkKey(row).Some?
        && exists i :: 0 <= i < |defectData| && LinkKey(defectData[i]) == LinkKey(row))
    {
      var key := LinkKey(row);
      if key.Some? then
        DefectKeysExactly(defectData, key.value);
        key.value in defectMap
      else false
    }

    /** The intended defect test: some defect record has the same trimmed
        order and bottom numbers. */
    function IsDefectivePair(row: Row): (r: bool)
      reads this
      ensures LinkPair(row).None? ==> !r
      ensures r <==> (LinkPair(row).Some?
        && exists i :: 0 <= i < |defectData| && LinkPair(defectData[i]) == LinkPair(row))
    {
      var pair := LinkPair(row);
      pair.Some? && PairIn(pair.value, defectData)
    }

    /** hasDefectData */
    function HasDefectData(): (r: bool)
      reads this
      ensures r <==> defectData != []
    {
      |defectData| > 0
    }
  }

  /** The key test never misses a defect the pair test finds. */
  lemma PairMatchImpliesKeyMatch(defects: seq<Row>, row: Row)
    requires LinkPair(row).Some?
    requires PairIn(LinkPair(row).value, defects)
    ensures LinkKey(row).value in DefectKeys(defects)
  {
    var i :| 0 <= i < |defects| && LinkPair(defects[i]) == LinkPair(row);
    DefectKeysExactly(defects, LinkKey(row).value);
  }
}
