/** The page state of app.js: the loaded records, the records the filters
    let through, and the defect rule, together with the handlers that
    replace them (loading, applying and resetting the filters, editing the
    rule). */
module Dashboard {
  import opened JsText
  import opened Helpers
  import opened Parser
  import opened Records
  import opened Filters
  import opened Defects

  /** `tableDisplayLimit = 500` */
  const TableLimit: nat := 500

  /** A filter form with every field blank. */
  const BlankForm: FilterForm := FilterForm("", "", "", "", "", "", "", "")

  /** The welder of a record when it is set and not the placeholder
      "Неизвестно". */
  function KnownWelderAt(row: Row): Option<Cell> {
    var w := Get(row, WelderColumn);
    if w == Some(Str(UnknownWelder)) then None else w
  }

  /** validWeldersSet: the welders named in the records, each once, in the
      order they first appear. */
  function KnownWelders(rows: seq<Row>): seq<Cell> {
    TruthySet(rows, KnownWelderAt)
  }

  /** A welder is listed exactly when some record names them and the name
      is not the placeholder. */
  lemma KnownWelderMembers(rows: seq<Row>, c: Cell)
    ensures c in KnownWelders(rows) <==>
      c != Str(UnknownWelder) && exists i :: 0 <= i < |rows| && Get(rows[i], WelderColumn) == Some(c) && Truthy(Some(c))
  {
    TruthySetMembers(rows, KnownWelderAt, c);
  }

  /** Both filters keep records in order, and a blank form keeps them all. */
  lemma FilteredShape(allData: seq<Row>, defectData: seq<Row>, q: FilterForm)
    ensures IsSubsequence(FilterMain(allData, q), allData)
    ensures IsSubsequence(FilterDefectData(defectData, q.dateFrom, q.dateTo), defectData)
    ensures q == BlankForm ==>
      FilterMain(allData, q) == allData && FilterDefectData(defectData, q.dateFrom, q.dateTo) == defectData
  {
    FilterMainIsSubsequence(allData, q);
    FilterDefectDataShape(defectData, q.dateFrom, q.dateTo);
    if q == BlankForm {
      EmptyFormKeepsAll(allData, q);
    }
  }

  class Dashboard {
    var allData: seq<Row>
    var headers: seq<string>
    /** window.parser.getDefectData(): every loaded defect record. */
    var defectData: seq<Row>
    var filteredData: seq<Row>
    var filteredDefectData: seq<Row>
    var defectRule: DefectRule
    var validWelders: seq<Cell>
    var tableDisplayLimit: nat
    /** The form last applied, as read; none since a load or a reset. */
    ghost var appliedForm: Option<FilterForm>

    /** The records shown are all the loaded ones, or, once a form has
        been applied, the loaded ones that pass it; by FilteredShape they
        are drawn from the loaded ones in order either way. */
    ghost predicate Valid()
      reads this
    {
      match appliedForm
      case None => filteredData == allData && filteredDefectData == defectData
      case Some(q) =>
        && filteredData == FilterMain(allData, q)
        && filteredDefectData == FilterDefectData(defectData, q.dateFrom, q.dateTo)
    }

    /** The state before anything is loaded. */
    constructor()
      ensures Valid()
      ensures allData == [] && headers == [] && defectData == []
      ensures filteredData == [] && filteredDefectData == []
      ensures defectRule == DefaultRule && validWelders == [] && tableDisplayLimit == TableLimit
    {
      allData, headers, defectData := [], [], [];
      filteredData, filteredDefectData := [], [];
      defectRule := DefaultRule;
      validWelders := [];
      tableDisplayLimit := TableLimit;
      appliedForm := None;
    }

    /** The load step of loadData and reloadData: a result without main
        records changes nothing; otherwise the records replace the old
        ones, nothing is filtered out, and the known welders are collected
        again. */
    method Load(mainData: seq<Row>, mainHeaders: seq<string>, defects: Option<seq<Row>>)
      returns (loaded: bool)
      modifies this
      ensures loaded ==> Valid()
      ensures loaded <==> mainData != []
      ensures !loaded ==> unchanged(this)
      ensures loaded ==> allData == mainData && headers == mainHeaders && filteredData == mainData
      ensures loaded ==> defectData == filteredDefectData == (if defects.Some? then defects.value else [])
      ensures loaded ==> validWelders == KnownWelders(mainData)
      ensures loaded ==> defectRule == old(defectRule) && tableDisplayLimit == old(tableDisplayLimit)
    {
      if mainData == [] {
        return false;
      }
      var defectRecords := if defects.Some? then defects.value else [];
      var welders := CollectTruthy(mainData, KnownWelderAt);
      allData, headers, defectData := mainData, mainHeaders, defectRecords;
      filteredData, filteredDefectData := mainData, defectRecords;
      validWelders, appliedForm := welders, None;
      loaded := true;
    }

    /** applyFilters, on the field values as read from the page (see
        ReadForm): a form whose non-blank date field fails the format check
        changes nothing; otherwise the main records are filtered by the
        whole form and the defect records by its dates. A blank form keeps
        every record. */
    method ApplyFilters(q: FilterForm, validFormat: string -> bool) returns (accepted: bool)
      requires Valid()
      modifies this
      ensures Valid()
      ensures accepted <==> FormAccepted(q, validFormat)
      ensures !accepted ==> unchanged(this)
      ensures accepted ==> filteredData == FilterMain(allData, q)
      ensures accepted ==> filteredDefectData == FilterDefectData(defectData, q.dateFrom, q.dateTo)
      ensures accepted ==> tableDisplayLimit == TableLimit
      ensures accepted ==> IsSubsequence(filteredData, allData) && IsSubsequence(filteredDefectData, defectData)
      ensures allData == old(allData) && headers == old(headers) && defectData == old(defectData)
      ensures defectRule == old(defectRule) && validWelders == old(validWelders)
      ensures q == BlankForm ==> accepted && filteredData == allData && filteredDefectData == defectData
    {
      if !FormAccepted(q, validFormat) {
        return false;
      }
      filteredData := FilterMain(allData, q);
      filteredDefectData := FilterDefectData(defectData, q.dateFrom, q.dateTo);
      tableDisplayLimit := TableLimit;
      appliedForm := Some(q);
      FilteredShape(allData, defectData, q);
      accepted := true;
    }

    /** resetFilters: every loaded record is shown again. */
    method ResetFilters()
      modifies this
      ensures Valid()
      ensures filteredData == allData && filteredDefectData == defectData
      ensures tableDisplayLimit == TableLimit
      ensures allData == old(allData) && headers == old(headers) && defectData == old(defectData)
      ensures defectRule == old(defectRule) && validWelders == old(validWelders)
    {
      filteredData := allData;
      filteredDefectData := defectData;
      tableDisplayLimit := TableLimit;
      appliedForm := None;
    }

    /** updateDefectRule: the field and operator as chosen, and the value
        read from its text by RuleValue; the records, the filtered views and
        the form they were filtered by stay as they were. */
    method UpdateDefectRule(field: string, operator: string, raw: string)
      requires Valid()
      modifies this
      ensures Valid()
      ensures defectRule == DefectRule(field, operator, RuleValue(raw))
      ensures appliedForm == old(appliedForm)
      ensures allData == old(allData) && headers == old(headers) && defectData == old(defectData)
      ensures filteredData == old(filteredData) && filteredDefectData == old(filteredDefectData)
      ensures validWelders == old(validWelders) && tableDisplayLimit == old(tableDisplayLimit)
    {
      defectRule := DefectRule(field, operator, RuleValue(raw));
    }
  }
}
