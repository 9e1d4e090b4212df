/**
 * The script that classifies the 2025 standardised material sheet. Every
 * row keeps all of its columns; the classification, a status and, for a
 * failure, the error are added to it. Rows are classified on a pool of
 * workers and collected as they finish, and the collected rows are written
 * out under the original columns followed by the result columns.
 */
module Process2025 {
  import opened Wrappers
  import opened Assoc
  import opened Lists
  import opened Material

  /** The classifier is shown the name, drawing/model as model, category/brand as brand, and material. */
  function ClassifyInfo(m: Row): Row {
    [(NAME, Field(m, NAME)), (MODEL, Field(m, DRAWING_MODEL)), (BRAND, Field(m, CATEGORY_BRAND)), (MATERIAL, Field(m, MATERIAL))]
  }

  /** The classifier sees the row's own name, model, brand and material, and no supplier. */
  lemma ClassifyInfoFields(m: Row)
    ensures Keys(ClassifyInfo(m)) == [NAME, MODEL, BRAND, MATERIAL]
    ensures Field(ClassifyInfo(m), NAME) == Field(m, NAME)
    ensures FieldOr(ClassifyInfo(m), DRAWING_MODEL, MODEL) == Field(m, DRAWING_MODEL)
    ensures FieldOr(ClassifyInfo(m), CATEGORY_BRAND, BRAND) == Field(m, CATEGORY_BRAND)
    ensures Field(ClassifyInfo(m), MATERIAL) == Field(m, MATERIAL)
    ensures Get(ClassifyInfo(m), SUPPLIER).None?
  {
    var info := ClassifyInfo(m);
    assert DistinctKeys(info);
    GetAt(info, 0);
    GetAt(info, 1);
    GetAt(info, 2);
    GetAt(info, 3);
    GetFound(info, DRAWING_MODEL);
    GetFound(info, CATEGORY_BRAND);
    GetFound(info, SUPPLIER);
  }

  /** The cells a success adds: the categories and "success"; the error cell is not touched. */
  function SuccessCells(c: Pairs<string, string>): Pairs<string, string> {
    [(CATEGORY_COLUMN, GetOr(c, "main_category", "")), (SUBCATEGORY_COLUMN, GetOr(c, "sub_category", "")),
     (STATUS_COLUMN, "success")]
  }

  /** The cells a failure adds: empty categories, "failed" and the error. */
  function FailureCells(e: string): Pairs<string, string> {
    [(CATEGORY_COLUMN, ""), (SUBCATEGORY_COLUMN, ""), (STATUS_COLUMN, "failed"), (ERROR_COLUMN, e)]
  }

  /** `process_material`: a copy of the row updated with the cells of its outcome. */
  function ProcessMaterial(m: Row, classify: Row -> Answer): Row {
    match classify(ClassifyInfo(m))
    case Ok(c) => PutAll(m, SuccessCells(c))
    case Err(e) => PutAll(m, FailureCells(e))
  }

  /**
   * A processed row keeps the row's columns in front, in order, and the
   * cells outside the result columns. A success carries the classifier's
   * categories and "success" and keeps whatever error cell the row had; a
   * failure carries empty categories, "failed" and the error.
   */
  lemma ProcessedShape(m: Row, classify: Row -> Answer)
    requires DistinctKeys(m)
    ensures DistinctKeys(ProcessMaterial(m, classify))
    ensures |m| <= |ProcessMaterial(m, classify)| && Keys(ProcessMaterial(m, classify))[..|m|] == Keys(m)
    ensures forall k :: k != CATEGORY_COLUMN && k != SUBCATEGORY_COLUMN && k != STATUS_COLUMN && k != ERROR_COLUMN ==>
              Get(ProcessMaterial(m, classify), k) == Get(m, k)
    ensures classify(ClassifyInfo(m)).Ok? ==>
              var c := classify(ClassifyInfo(m)).value;
              Get(ProcessMaterial(m, classify), CATEGORY_COLUMN) == Some(GetOr(c, "main_category", ""))
              && Get(ProcessMaterial(m, classify), SUBCATEGORY_COLUMN) == Some(GetOr(c, "sub_category", ""))
              && Get(ProcessMaterial(m, classify), STATUS_COLUMN) == Some("success")
              && Get(ProcessMaterial(m, classify), ERROR_COLUMN) == Get(m, ERROR_COLUMN)
    ensures classify(ClassifyInfo(m)).Err? ==>
              Get(ProcessMaterial(m, classify), CATEGORY_COLUMN) == Some("")
              && Get(ProcessMaterial(m, classify), SUBCATEGORY_COLUMN) == Some("")
              && Get(ProcessMaterial(m, classify), STATUS_COLUMN) == Some("failed")
              && Get(ProcessMaterial(m, classify), ERROR_COLUMN) == Some(classify(ClassifyInfo(m)).error)
  {
    match classify(ClassifyInfo(m))
    case Ok(c) =>
      var cells := SuccessCells(c);
      assert DistinctKeys(cells);
      UpdateShape(m, cells);
      assert cells[0].0 == CATEGORY_COLUMN && cells[1].0 == SUBCATEGORY_COLUMN && cells[2].0 == STATUS_COLUMN;
      assert forall i :: 0 <= i < |cells| ==> cells[i].0 != ERROR_COLUMN;
    case Err(e) =>
      var cells := FailureCells(e);
      assert DistinctKeys(cells);
      UpdateShape(m, cells);
      assert cells[0].0 == CATEGORY_COLUMN && cells[1].0 == SUBCATEGORY_COLUMN;
      assert cells[2].0 == STATUS_COLUMN && cells[3].0 == ERROR_COLUMN;
  }

  /** The processed row keeps every cell of the row under its own column. */
  lemma ProcessedKeepsColumns(m: Row, classify: Row -> Answer)
    requires DistinctKeys(m)
    ensures forall k :: k in Keys(m) ==> k in Keys(ProcessMaterial(m, classify))
  {
    ProcessedShape(m, classify);
    forall k | k in Keys(m)
      ensures k in Keys(ProcessMaterial(m, classify))
    {
      var i :| 0 <= i < |Keys(m)| && Keys(m)[i] == k;
      assert Keys(ProcessMaterial(m, classify))[..|m|][i] == k;
    }
  }

  // ---------------------------------------------------------------------------
  // The batch

  /** `0, 1, ..., n - 1`. */
  function Indices(n: nat): (r: seq<nat>)
    ensures |r| == n
    ensures forall i :: 0 <= i < n ==> r[i] == i
  {
    seq(n, i requires 0 <= i < n => i)
  }

  /** An order in which the `n` jobs of a batch can finish: each job exactly once. */
  predicate CompletionOrder(order: seq<nat>, n: nat) {
    multiset(order) == multiset(Indices(n))
  }

  /**
   * `process_batch`: every material is processed, and the results are
   * collected in the order the jobs finish, given as `order`, with a
   * rate-limit sleep after each result.
   */
  method ProcessBatch(materials: seq<Row>, classify: Row -> Answer, order: seq<nat>) returns (results: seq<Row>, sleeps: nat)
    requires CompletionOrder(order, |materials|)
    ensures |results| == |order| == |materials|
    ensures forall j :: 0 <= j < |order| ==> order[j] < |materials| && results[j] == ProcessMaterial(materials[order[j]], classify)
    ensures sleeps == |materials|
  {
    OrderBounded(order, |materials|);
    results := [];
    sleeps := 0;
    for j := 0 to |order|
      invariant |results| == j && sleeps == j
      invariant forall k :: 0 <= k < j ==> results[k] == ProcessMaterial(materials[order[k]], classify)
    {
      var result := ProcessMaterial(materials[order[j]], classify);
      results := results + [result];
      sleeps := sleeps + 1;
    }
  }

  /** A completion order has one entry per job, each naming a job. */
  lemma OrderBounded(order: seq<nat>, n: nat)
    requires CompletionOrder(order, n)
    ensures |order| == n
    ensures forall j :: 0 <= j < |order| ==> order[j] < n
  {
    assert |multiset(order)| == |multiset(Indices(n))|;
    forall j | 0 <= j < |order|
      ensures order[j] < n
    {
      assert order[j] in multiset(order);
      assert order[j] in multiset(Indices(n));
    }
  }

  /** Every material's result is collected, whatever order the jobs finish in. */
  lemma EveryResultCollected(materials: seq<Row>, classify: Row -> Answer, order: seq<nat>, results: seq<Row>)
    requires CompletionOrder(order, |materials|)
    requires |results| == |order|
    requires forall j :: 0 <= j < |order| ==> order[j] < |materials| && results[j] == ProcessMaterial(materials[order[j]], classify)
    ensures forall i :: 0 <= i < |materials| ==> ProcessMaterial(materials[i], classify) in results
  {
    forall i | 0 <= i < |materials|
      ensures ProcessMaterial(materials[i], classify) in results
    {
      assert Indices(|materials|)[i] == i;
      assert i in multiset(Indices(|materials|));
      assert i in multiset(order);
      var j :| 0 <= j < |order| && order[j] == i;
      assert results[j] == ProcessMaterial(materials[i], classify);
    }
  }

  // ---------------------------------------------------------------------------
  // Writing the sheet

  /** The result columns, written after the original ones. */
  const RESULT_COLUMNS := [CATEGORY_COLUMN, SUBCATEGORY_COLUMN, STATUS_COLUMN, ERROR_COLUMN]

  /** The written sheet: a header, and one row of cells per result; `None` is a cell with no value. */
  datatype Table = Table(header: seq<string>, cells: seq<seq<Option<string>>>)

  /** Some result has the column: the frame built from the results has it. */
  predicate Present(results: seq<Row>, c: string) {
    exists i :: 0 <= i < |results| && c in Keys(results[i])
  }

  /**
   * A cell of the frame: the result's value in a column some result has,
   * no value where this result lacks it, and "" in a result column that
   * no result has.
   */
  function Cell(results: seq<Row>, r: Row, c: string): Option<string> {
    if Present(results, c) then Get(r, c) else Some("")
  }

  /** The cells of one result under `header`. */
  function RowCells(results: seq<Row>, r: Row, header: seq<string>): (row: seq<Option<string>>)
    ensures |row| == |header|
    ensures forall j :: 0 <= j < |header| ==> row[j] == Cell(results, r, header[j])
  {
    seq(|header|, j requires 0 <= j < |header| => Cell(results, r, header[j]))
  }

  /** The sheet with the original columns followed by the result columns, one row per result. */
  function OutputTable(results: seq<Row>, columns: seq<string>): Table {
    var header := columns + RESULT_COLUMNS;
    Table(header, seq(|results|, i requires 0 <= i < |results| => RowCells(results, results[i], header)))
  }

  /** The original columns that no result has and that are not result columns. */
  function Unresolved(results: seq<Row>, columns: seq<string>): (r: seq<string>)
    ensures forall c :: c in r <==> c in columns && !Present(results, c) && c !in RESULT_COLUMNS
  {
    if columns == [] then []
    else
      (if !Present(results, columns[0]) && columns[0] !in RESULT_COLUMNS then [columns[0]] else [])
      + Unresolved(results, columns[1..])
  }

  /**
   * `write_results_to_excel` as written: only the result columns are
   * created when no result has them, so selecting an original column that
   * no result has fails with a key error naming the missing columns.
   */
  function WriteResultsAsWritten(results: seq<Row>, columns: seq<string>): Result<Table, seq<string>> {
    var unresolved := Unresolved(results, columns);
    if unresolved != [] then Err(unresolved) else Ok(OutputTable(results, columns))
  }

  /**
   * The written sheet: the original columns then the result columns; one
   * row per result, in order; each cell the result's value under that
   * column, no value where the result lacks a column another result has,
   * and "" in a column no result has.
   */
  lemma OutputTableShape(results: seq<Row>, columns: seq<string>)
    ensures OutputTable(results, columns).header == columns + RESULT_COLUMNS
    ensures |OutputTable(results, columns).cells| == |results|
    ensures forall i, j :: 0 <= i < |results| && 0 <= j < |columns| + 4 ==>
              |OutputTable(results, columns).cells[i]| == |columns| + 4
              && OutputTable(results, columns).cells[i][j] ==
                   (if Present(results, (columns + RESULT_COLUMNS)[j]) then Get(results[i], (columns + RESULT_COLUMNS)[j]) else Some(""))
  {
  }

  /** The intended behaviour never fails, and an empty batch gives a sheet with the header and no row. */
  lemma EmptyBatchSheet(columns: seq<string>)
    ensures OutputTable([], columns) == Table(columns + RESULT_COLUMNS, [])
  {
  }

  /**
   * As written, the writer fails exactly when an original column outside
   * the result columns is in no result; otherwise it writes the intended
   * sheet.
   */
  lemma AsWrittenFails(results: seq<Row>, columns: seq<string>)
    ensures WriteResultsAsWritten(results, columns).Err? <==>
              exists c :: c in columns && !Present(results, c) && c !in RESULT_COLUMNS
    ensures WriteResultsAsWritten(results, columns).Ok? ==> WriteResultsAsWritten(results, columns).value == OutputTable(results, columns)
  {
    var unresolved := Unresolved(results, columns);
    if unresolved != [] {
      assert unresolved[0] in unresolved;
    }
  }

  /** With no material to process, a sheet with an ordinary column cannot be written as written. */
  lemma EmptyBatchFails()
    ensures WriteResultsAsWritten([], [NAME]).Err?
  {
    assert !Present([], NAME);
    assert NAME !in RESULT_COLUMNS by {
      assert NAME[0] == '物';
      assert forall i :: 0 <= i < |RESULT_COLUMNS| ==> RESULT_COLUMNS[i][0] != '物';
    }
    AsWrittenFails([], [NAME]);
  }

  /**
   * A non-empty batch over a sheet with columns `columns` is written as
   * intended: every original column is in each processed row.
   */
  lemma BatchWritable(materials: seq<Row>, classify: Row -> Answer, results: seq<Row>, columns: seq<string>)
    requires results != []
    requires forall i :: 0 <= i < |materials| ==> Keys(materials[i]) == columns && DistinctKeys(materials[i])
    requires forall j :: 0 <= j < |results| ==> exists i :: 0 <= i < |materials| && results[j] == ProcessMaterial(materials[i], classify)
    ensures WriteResultsAsWritten(results, columns) == Ok(OutputTable(results, columns))
  {
    assert exists i :: 0 <= i < |materials| && results[0] == ProcessMaterial(materials[i], classify);
    var i :| 0 <= i < |materials| && results[0] == ProcessMaterial(materials[i], classify);
    ProcessedKeepsColumns(materials[i], classify);
    forall c | c in columns
      ensures Present(results, c)
    {
      assert c in Keys(results[0]);
    }
    AsWrittenFails(results, columns);
  }
}
