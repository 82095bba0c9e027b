/** The data table: the header label of a column, the value a cell shows, and
    the "No data available." rule for an empty list. */
module DataTable {
  import opened Js
  import opened Paths
  import opened Narrowing

  /** `column.includes('.') ? column.split('.').pop() : column`. */
  function HeaderLabel(column: string): (heading: string)
    ensures '.' !in column ==> heading == column
    ensures '.' in column ==> IsLastPart(column, '.', heading) && |heading| < |column|
  {
    if '.' in column then
      LastPartIsTail(column, '.');
      Last(Split(column, '.'))
    else column
  }

  /** The value behind a cell: `getNestedValue(row, column)` for a dotted
      column, the plain property `row[column]` otherwise. */
  function CellValue(row: Record, column: string): Value {
    if '.' in column then Walk(Obj(row), Split(column, '.')) else Member(Obj(row), column)
  }

  /** Both ways of reading a cell are the one walk along the column's keys. */
  lemma CellIsWalk(row: Record, column: string)
    ensures CellValue(row, column) == Walk(Obj(row), Split(column, '.'))
  {
    if '.' !in column {
      SplitWithoutSep(column, '.');
    }
  }

  /** `formatValue`: "N/A" for `null` and `undefined`, `stringify(value)`
      (standing for `JSON.stringify`) for an object, `toString()` otherwise. */
  function FormatValue(v: Value, stringify: Value -> string): (text: string)
    ensures Nullish(v) ==> text == "N/A" && text != ToText(v)
    ensures !Nullish(v) && !v.Obj? ==> text == ToText(v)
    ensures v.Obj? ==> text == stringify(v)
  {
    if Nullish(v) then "N/A"
    else if v.Obj? then stringify(v)
    else ToText(v)
  }

  /** Falsy values are still shown as they print; only the nullish ones become "N/A". */
  lemma FalsyValuesShown(stringify: Value -> string)
    ensures FormatValue(Num("0"), stringify) == "0"
    ensures FormatValue(Bool(false), stringify) == "false"
    ensures FormatValue(Str(""), stringify) == ""
    ensures FormatValue(Null, stringify) == "N/A" && FormatValue(Undefined, stringify) == "N/A"
  {
  }

  /** Whatever a search or field filter matched in a field is visible in that
      field's cell, unless the value is an object (the table shows its JSON,
      the search its `toString()`). Holds for the dotted fold of the users and
      for the plain read of an undotted column. */
  lemma SearchedValueIsShown(access: Access, row: Record, column: string, term: string, stringify: Value -> string)
    requires access == Dotted || '.' !in column
    requires Matches(FieldValue(access, row, column), term)
    requires !CellValue(row, column).Obj?
    ensures Includes(ToLower(FormatValue(CellValue(row, column), stringify)), ToLower(term))
  {
    DottedIsFold(row, column);
    CellIsWalk(row, column);
    WalkAgreesWithFold(Obj(row), Split(column, '.'));
    if '.' !in column {
      SplitWithoutSep(column, '.');
    }
  }

  /** A row the pages' search keeps shows the search term in one of its
      cells, or holds an object there (shown as JSON, searched as its
      `toString()`): the search never keeps a row for text the table hides. */
  lemma KeptRowShowsTerm(access: Access, rows: seq<Record>, columns: seq<string>, term: string,
                         stringify: Value -> string, row: Record)
    requires access == Dotted || forall j :: 0 <= j < |columns| ==> '.' !in columns[j]
    requires term != "" && row in SearchNarrow(access, rows, columns, term)
    ensures exists j :: 0 <= j < |columns| && (CellValue(row, columns[j]).Obj? ||
              Includes(ToLower(FormatValue(CellValue(row, columns[j]), stringify)), ToLower(term)))
  {
    var j :| 0 <= j < |columns| && Matches(FieldValue(access, row, columns[j]), term);
    if !CellValue(row, columns[j]).Obj? {
      SearchedValueIsShown(access, row, columns[j], term, stringify);
    }
  }

  /** What the component renders. */
  datatype Table = NoData | Grid(headers: seq<string>, cells: seq<seq<string>>)

  /** The table for `data` (absent when `None`): the message when there is
      nothing to show, else one header per column and one row of cells per record. */
  function Render(data: Option<seq<Record>>, columns: seq<string>, stringify: Value -> string): (t: Table)
    ensures t.NoData? <==> data.None? || data.value == []
    ensures t.Grid? ==>
      |t.headers| == |columns| && |t.cells| == |data.value| &&
      (forall j :: 0 <= j < |columns| ==> t.headers[j] == HeaderLabel(columns[j])) &&
      (forall i :: 0 <= i < |t.cells| ==> |t.cells[i]| == |columns|) &&
      (forall i, j :: 0 <= i < |t.cells| && 0 <= j < |columns| ==>
        t.cells[i][j] == FormatValue(Walk(Obj(data.value[i]), Split(columns[j], '.')), stringify))
  {
    if data.None? || data.value == [] then NoData
    else
      var rows := data.value;
      forall i, j | 0 <= i < |rows| && 0 <= j < |columns|
        ensures CellValue(rows[i], columns[j]) == Walk(Obj(rows[i]), Split(columns[j], '.'))
      {
        CellIsWalk(rows[i], columns[j]);
      }
      Grid(seq(|columns|, j requires 0 <= j < |columns| => HeaderLabel(columns[j])),
           seq(|rows|, i requires 0 <= i < |rows| =>
             seq(|columns|, j requires 0 <= j < |columns| => FormatValue(CellValue(rows[i], columns[j]), stringify))))
  }

  /** `getNestedValue` on a concrete user: a present nested key, a missing final
      key (`undefined`), and paths through a number or a missing key (`null`). */
  lemma NestedExamples(city: Value)
    ensures var user := Obj(map["address" := Obj(map["city" := city]), "age" := Num("28")]);
      Walk(user, ["address", "city"]) == city &&
      Walk(user, ["address", "zip"]) == Undefined &&
      Walk(user, ["age", "x"]) == Null &&
      Walk(user, ["missing", "x"]) == Null
  {
  }
}
