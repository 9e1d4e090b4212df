/**
 * The material manager of the claude tool. Unlike the batch tool's manager
 * it requires a name, a drawing/model and a category/brand: a material
 * missing one fails without being classified, and the readers drop such
 * rows. Batches run one material after the other with a rate-limit sleep
 * between two, and results are written back into the cells of the sheet
 * they came from.
 */
module ClaudeManager {
  import opened Wrappers
  import opened Text
  import opened Assoc
  import opened Lists
  import opened Material
  import Manager

  /** The fields a material must have, checked in this order. */
  const REQUIRED_FIELDS := [NAME, DRAWING_MODEL, CATEGORY_BRAND]

  /** The message of the missing-field error, before the field name. */
  const MISSING_FIELD := "缺少必填字段: "

  /** `not material_data.get(field, "").strip()`. */
  predicate Blank(m: Row, field: string) {
    Strip(Field(m, field)) == []
  }

  /** The first of `fields` that is blank in `m`, if any. */
  function FirstMissing(fields: seq<string>, m: Row): Option<string> {
    if fields == [] then None
    else if Blank(m, fields[0]) then Some(fields[0])
    else FirstMissing(fields[1..], m)
  }

  /**
   * The validation reports a field exactly when one is blank, and then the
   * first blank one.
   */
  lemma {:induction false} FirstMissingFirst(fields: seq<string>, m: Row)
    ensures FirstMissing(fields, m).None? <==> forall i :: 0 <= i < |fields| ==> !Blank(m, fields[i])
    ensures FirstMissing(fields, m).Some? ==>
              exists i :: 0 <= i < |fields| && fields[i] == FirstMissing(fields, m).value && Blank(m, fields[i])
                          && forall j :: 0 <= j < i ==> !Blank(m, fields[j])
  {
    if fields != [] && !Blank(m, fields[0]) {
      FirstMissingFirst(fields[1..], m);
      var r := FirstMissing(fields[1..], m);
      if r.Some? {
        var i :| 0 <= i < |fields| - 1 && fields[1..][i] == r.value && Blank(m, fields[1..][i])
                 && forall j :: 0 <= j < i ==> !Blank(m, fields[1..][j]);
        assert fields[i + 1] == r.value;
        forall j | 0 <= j < i + 1
          ensures !Blank(m, fields[j])
        {
          if j > 0 {
            assert fields[j] == fields[1..][j - 1];
          }
        }
      } else {
        forall i | 0 <= i < |fields|
          ensures !Blank(m, fields[i])
        {
          if i > 0 {
            assert fields[i] == fields[1..][i - 1];
          }
        }
      }
    } else if fields != [] {
      assert fields[0] == FirstMissing(fields, m).value;
    }
  }

  /** The three required fields are all filled in. */
  predicate Complete(m: Row) {
    !Blank(m, NAME) && !Blank(m, DRAWING_MODEL) && !Blank(m, CATEGORY_BRAND)
  }

  /** The required-field check passes exactly on complete materials. */
  lemma RequiredCheck(m: Row)
    ensures FirstMissing(REQUIRED_FIELDS, m).None? <==> Complete(m)
  {
    FirstMissingFirst(REQUIRED_FIELDS, m);
    assert REQUIRED_FIELDS[0] == NAME && REQUIRED_FIELDS[1] == DRAWING_MODEL && REQUIRED_FIELDS[2] == CATEGORY_BRAND;
  }

  /**
   * `process_material`: a material missing a required field fails with a
   * message naming the first such field, and the classifier is not
   * consulted; a complete material is handled exactly as by the batch
   * tool's manager.
   */
  function ProcessMaterial(m: Row, classify: Row -> Answer): (r: Manager.Processed)
    ensures r.original == m
    ensures FirstMissing(REQUIRED_FIELDS, m).Some? ==> r == Manager.Unclassified(m, MISSING_FIELD + FirstMissing(REQUIRED_FIELDS, m).value)
    ensures FirstMissing(REQUIRED_FIELDS, m).None? ==> r == Manager.ProcessMaterial(m, classify)
  {
    match FirstMissing(REQUIRED_FIELDS, m)
    case Some(field) => Manager.Unclassified(m, MISSING_FIELD + field)
    case None => Manager.ProcessMaterial(m, classify)
  }

  /** The outcome of an incomplete material does not depend on the classifier at all. */
  lemma IncompleteNotClassified(m: Row, classify: Row -> Answer, other: Row -> Answer)
    requires !Complete(m)
    ensures ProcessMaterial(m, classify) == ProcessMaterial(m, other)
    ensures ProcessMaterial(m, classify).Unclassified?
  {
    RequiredCheck(m);
  }

  /**
   * A material is classified exactly when it is complete and the classifier
   * succeeds on it; an incomplete one fails naming one of its blank required
   * fields.
   */
  lemma ClassifiedExactly(m: Row, classify: Row -> Answer)
    ensures ProcessMaterial(m, classify).Classified? <==> Complete(m) && classify(Manager.ExtractInfo(m)).Ok?
    ensures !Complete(m) ==>
              exists f :: f in REQUIRED_FIELDS && Blank(m, f) &&
                          ProcessMaterial(m, classify) == Manager.Unclassified(m, MISSING_FIELD + f)
  {
    RequiredCheck(m);
    FirstMissingFirst(REQUIRED_FIELDS, m);
  }

  /** `process_batch`: one result per material, in order, and a sleep between two materials. */
  method ProcessBatch(materials: seq<Row>, classify: Row -> Answer) returns (results: seq<Manager.Processed>, sleeps: nat)
    ensures |results| == |materials|
    ensures forall i :: 0 <= i < |materials| ==> results[i] == ProcessMaterial(materials[i], classify)
    ensures sleeps == if materials == [] then 0 else |materials| - 1
  {
    results := [];
    sleeps := 0;
    for i := 0 to |materials|
      invariant |results| == i
      invariant forall j :: 0 <= j < i ==> results[j] == ProcessMaterial(materials[j], classify)
      invariant sleeps == if i < |materials| then i else if i == 0 then 0 else i - 1
    {
      var result := ProcessMaterial(materials[i], classify);
      results := results + [result];
      if i < |materials| - 1 {
        sleeps := sleeps + 1;
      }
    }
  }

  // ---------------------------------------------------------------------------
  // Reading materials

  /** The material of one row, kept only when its three required fields are not blank. */
  function CompleteMaterial(row: Row): Option<Row> {
    var m := Manager.CsvMaterial(row);
    if Complete(m) then Some(m) else None
  }

  /** The row loop of `read_materials_from_csv` and of `read_materials_from_excel`. */
  method ReadMaterials(rows: seq<Row>) returns (materials: seq<Row>)
    ensures materials == FilterMap(rows, CompleteMaterial)
  {
    materials := [];
    for i := 0 to |rows|
      invariant materials == FilterMap(rows[..i], CompleteMaterial)
    {
      FilterMapSnoc(rows[..i], rows[i], CompleteMaterial);
      assert rows[..i + 1] == rows[..i] + [rows[i]];
      var m := Manager.CsvMaterial(rows[i]);
      if Complete(m) {
        materials := materials + [m];
      }
    }
    assert rows[..|rows|] == rows;
  }

  /** A row's material is kept exactly when the row's own required cells are filled in. */
  lemma CompleteMaterialOf(row: Row)
    ensures CompleteMaterial(row).Some? <==> Complete(row)
    ensures CompleteMaterial(row).Some? ==> CompleteMaterial(row).value == Manager.CsvMaterial(row)
  {
    Manager.CsvMaterialFields(row);
    assert NAME in Manager.STANDARD && DRAWING_MODEL in Manager.STANDARD && CATEGORY_BRAND in Manager.STANDARD;
  }

  /** The readers keep the material of every row whose required cells are filled in. */
  lemma ReadKeepsComplete(rows: seq<Row>)
    ensures forall i :: 0 <= i < |rows| && Complete(rows[i]) ==> Manager.CsvMaterial(rows[i]) in FilterMap(rows, CompleteMaterial)
  {
    FilterMapExact(rows, CompleteMaterial);
    forall i | 0 <= i < |rows| && Complete(rows[i])
      ensures Manager.CsvMaterial(rows[i]) in FilterMap(rows, CompleteMaterial)
    {
      CompleteMaterialOf(rows[i]);
    }
  }

  /**
   * Every material the readers return passes the required-field check, so
   * processing it consults the classifier just as the batch tool does.
   */
  lemma ReadPassesCheck(rows: seq<Row>, classify: Row -> Answer)
    ensures forall m :: m in FilterMap(rows, CompleteMaterial) ==>
              FirstMissing(REQUIRED_FIELDS, m).None? && ProcessMaterial(m, classify) == Manager.ProcessMaterial(m, classify)
  {
    FilterMapExact(rows, CompleteMaterial);
    forall m | m in FilterMap(rows, CompleteMaterial)
      ensures FirstMissing(REQUIRED_FIELDS, m).None?
    {
      var i :| 0 <= i < |rows| && CompleteMaterial(rows[i]) == Some(m);
      RequiredCheck(m);
    }
  }

  // ---------------------------------------------------------------------------
  // Writing results back into the sheet

  /** The status column of this tool. */
  const STATE_COLUMN := "状态"

  /** The columns the writer makes sure the sheet has, in the order it adds them. */
  const WRITTEN := [CATEGORY_COLUMN, SUBCATEGORY_COLUMN, STATE_COLUMN, ERROR_COLUMN]

  /** An empty cell in each of `columns`. */
  function Blanks(columns: seq<string>): (cells: Pairs<string, string>)
    ensures |cells| == |columns|
    ensures forall i :: 0 <= i < |columns| ==> cells[i] == (columns[i], "")
  {
    seq(|columns|, i requires 0 <= i < |columns| => (columns[i], ""))
  }

  /** A row of the sheet once the missing result columns are added, empty. */
  function Padded(row: Row, columns: seq<string>): Row {
    PutAll(row, Blanks(Missing(WRITTEN, columns)))
  }

  /** The cells a success writes: its categories, "success" and an empty error. */
  function SuccessCells(c: Pairs<string, string>): Pairs<string, string> {
    [(CATEGORY_COLUMN, GetOr(c, "main_category", "")), (SUBCATEGORY_COLUMN, GetOr(c, "sub_category", "")),
     (STATE_COLUMN, "success"), (ERROR_COLUMN, "")]
  }

  /** The cells a failure writes: "failed" and its error, and no category. */
  function FailureCells(e: string): Pairs<string, string> {
    [(STATE_COLUMN, "failed"), (ERROR_COLUMN, e)]
  }

  /** A row once the result of its material is written into it. */
  function Updated(row: Row, p: Manager.Processed): Row {
    match p
    case Classified(_, c) => PutAll(row, SuccessCells(c))
    case Unclassified(_, e) => PutAll(row, FailureCells(e))
  }

  /** Row `i` of the sheet after the write. */
  function WrittenRow(row: Row, columns: seq<string>, results: seq<Manager.Processed>, i: nat): Row {
    if i < |results| then Updated(Padded(row, columns), results[i]) else Padded(row, columns)
  }

  /** The first loop of `write_results_to_csv`: every row gets the missing result columns, empty. */
  method PadRows(table: array<Row>, columns: seq<string>)
    modifies table
    ensures forall i :: 0 <= i < table.Length ==> table[i] == Padded(old(table[i]), columns)
  {
    for i := 0 to table.Length
      invariant forall j :: 0 <= j < i ==> table[j] == Padded(old(table[j]), columns)
      invariant forall j :: i <= j < table.Length ==> table[j] == old(table[j])
    {
      table[i] := Padded(table[i], columns);
    }
  }

  /** The second loop: the result of index `i` goes into row `i`, for the rows there are. */
  method WriteRows(table: array<Row>, results: seq<Manager.Processed>)
    modifies table
    ensures forall i :: 0 <= i < table.Length ==> table[i] == if i < |results| then Updated(old(table[i]), results[i]) else old(table[i])
  {
    var n := if |results| < table.Length then |results| else table.Length;
    for i := 0 to n
      invariant forall j :: 0 <= j < i ==> table[j] == Updated(old(table[j]), results[j])
      invariant forall j :: i <= j < table.Length ==> table[j] == old(table[j])
    {
      table[i] := Updated(table[i], results[i]);
    }
  }

  /**
   * `write_results_to_csv`: add the missing result columns, then write the
   * result of index `i` into row `i`, for the rows there are; surplus
   * results are ignored.
   */
  method WriteResults(table: array<Row>, columns: seq<string>, results: seq<Manager.Processed>) returns (newColumns: seq<string>)
    modifies table
    ensures newColumns == columns + Missing(WRITTEN, columns)
    ensures forall i :: 0 <= i < table.Length ==> table[i] == WrittenRow(old(table[i]), columns, results, i)
  {
    newColumns := columns + Missing(WRITTEN, columns);
    PadRows(table, columns);
    WriteRows(table, results);
  }

  /** The result columns are four different columns. */
  lemma WrittenDistinct()
    ensures forall i, j :: 0 <= i < j < |WRITTEN| ==> WRITTEN[i] != WRITTEN[j]
  {
    assert WRITTEN[0][0] == '功' && WRITTEN[1][0] == '二' && WRITTEN[2][0] == '状' && WRITTEN[3][0] == '错';
  }

  /** The padding cells are for different columns, none of which the row has. */
  lemma PaddingFresh(row: Row, columns: seq<string>)
    requires Keys(row) == columns
    ensures DistinctKeys(Blanks(Missing(WRITTEN, columns)))
    ensures forall i :: 0 <= i < |Missing(WRITTEN, columns)| ==> Blanks(Missing(WRITTEN, columns))[i].0 !in Keys(row)
  {
    var added := Missing(WRITTEN, columns);
    WrittenDistinct();
    MissingDistinct(WRITTEN, columns);
    forall i | 0 <= i < |added|
      ensures added[i] !in columns
    {
      assert added[i] in added;
    }
  }

  /**
   * Padding a row of a sheet with columns `columns` appends exactly the
   * missing result columns, empty, and leaves every cell it had.
   */
  lemma PaddedShape(row: Row, columns: seq<string>)
    requires Keys(row) == columns
    ensures Padded(row, columns) == row + Blanks(Missing(WRITTEN, columns))
    ensures Keys(Padded(row, columns)) == columns + Missing(WRITTEN, columns)
  {
    var added := Missing(WRITTEN, columns);
    var cells := Blanks(added);
    PaddingFresh(row, columns);
    PutAllAppends(row, cells);
    assert Keys(row + cells) == Keys(row) + added by {
      forall i | 0 <= i < |row| + |cells|
        ensures Keys(row + cells)[i] == (Keys(row) + added)[i]
      {
        if i >= |row| {
          assert (row + cells)[i] == cells[i - |row|];
        }
      }
    }
  }

  /** On a row that has the result columns, a success adds no column and moves none. */
  lemma SuccessKeepsColumns(row: Row, c: Pairs<string, string>)
    requires forall k :: k in WRITTEN ==> k in Keys(row)
    ensures Keys(PutAll(row, SuccessCells(c))) == Keys(row)
  {
    var cells := SuccessCells(c);
    assert forall i :: 0 <= i < |cells| ==> cells[i].0 == WRITTEN[i];
    assert forall i :: 0 <= i < |cells| ==> WRITTEN[i] in WRITTEN;
    PutAllPresent(row, cells);
  }

  /** A success keeps every cell outside the result columns. */
  lemma SuccessKeepsCells(row: Row, c: Pairs<string, string>)
    ensures forall k :: k !in WRITTEN ==> Get(PutAll(row, SuccessCells(c)), k) == Get(row, k)
  {
    var cells := SuccessCells(c);
    assert forall i :: 0 <= i < |cells| ==> cells[i].0 == WRITTEN[i];
    forall k | k !in WRITTEN
      ensures Get(PutAll(row, cells), k) == Get(row, k)
    {
      LastValueAbsent(cells, k);
      GetPutAll(row, cells, k);
    }
  }

  /** A success writes its categories, "success" and an empty error. */
  lemma SuccessWritten(row: Row, c: Pairs<string, string>)
    requires DistinctKeys(row)
    ensures Get(PutAll(row, SuccessCells(c)), CATEGORY_COLUMN) == Some(GetOr(c, "main_category", ""))
    ensures Get(PutAll(row, SuccessCells(c)), SUBCATEGORY_COLUMN) == Some(GetOr(c, "sub_category", ""))
    ensures Get(PutAll(row, SuccessCells(c)), STATE_COLUMN) == Some("success")
    ensures Get(PutAll(row, SuccessCells(c)), ERROR_COLUMN) == Some("")
  {
    var cells := SuccessCells(c);
    assert forall i :: 0 <= i < |cells| ==> cells[i].0 == WRITTEN[i];
    WrittenDistinct();
    UpdateShape(row, cells);
    assert cells[0].0 == CATEGORY_COLUMN && cells[1].0 == SUBCATEGORY_COLUMN;
    assert cells[2].0 == STATE_COLUMN && cells[3].0 == ERROR_COLUMN;
  }

  /** On a row that has the result columns, a failure adds no column and moves none. */
  lemma FailureKeepsColumns(row: Row, e: string)
    requires forall k :: k in WRITTEN ==> k in Keys(row)
    ensures Keys(PutAll(row, FailureCells(e))) == Keys(row)
  {
    var cells := FailureCells(e);
    assert cells[0].0 == WRITTEN[2] && cells[1].0 == WRITTEN[3];
    assert WRITTEN[2] in WRITTEN && WRITTEN[3] in WRITTEN;
    PutAllPresent(row, cells);
  }

  /** A failure keeps every cell but the status and the error, the category cells included. */
  lemma FailureKeepsCells(row: Row, e: string)
    ensures forall k :: k != STATE_COLUMN && k != ERROR_COLUMN ==> Get(PutAll(row, FailureCells(e)), k) == Get(row, k)
  {
    var cells := FailureCells(e);
    forall k | k != STATE_COLUMN && k != ERROR_COLUMN
      ensures Get(PutAll(row, cells), k) == Get(row, k)
    {
      LastValueAbsent(cells, k);
      GetPutAll(row, cells, k);
    }
  }

  /** A failure writes "failed" and its error. */
  lemma FailureWritten(row: Row, e: string)
    requires DistinctKeys(row)
    ensures Get(PutAll(row, FailureCells(e)), STATE_COLUMN) == Some("failed")
    ensures Get(PutAll(row, FailureCells(e)), ERROR_COLUMN) == Some(e)
  {
    var cells := FailureCells(e);
    assert cells[0].0 == WRITTEN[2] && cells[1].0 == WRITTEN[3];
    WrittenDistinct();
    UpdateShape(row, cells);
  }

  /** A padded row has distinct columns, the result columns among them. */
  lemma PaddedColumns(row: Row, columns: seq<string>)
    requires Keys(row) == columns && DistinctKeys(row)
    ensures DistinctKeys(Padded(row, columns))
    ensures forall k :: k in WRITTEN ==> k in Keys(Padded(row, columns))
  {
    var added := Missing(WRITTEN, columns);
    PaddingFresh(row, columns);
    PaddedShape(row, columns);
    UpdateShape(row, Blanks(added));
    forall k | k in WRITTEN
      ensures k in Keys(Padded(row, columns))
    {
      if k !in columns {
        assert k in added;
      }
    }
  }

  /** Padding keeps the row's cells and leaves the added ones empty. */
  lemma PaddedCells(row: Row, columns: seq<string>)
    requires Keys(row) == columns && DistinctKeys(row)
    ensures forall k :: k in columns ==> Get(Padded(row, columns), k) == Get(row, k)
    ensures forall k :: k in Missing(WRITTEN, columns) ==> Get(Padded(row, columns), k) == Some("")
  {
    var added := Missing(WRITTEN, columns);
    var cells := Blanks(added);
    PaddingFresh(row, columns);
    UpdateShape(row, cells);
    forall k | k in columns
      ensures Get(Padded(row, columns), k) == Get(row, k)
    {
      assert forall i :: 0 <= i < |cells| ==> cells[i].0 != k;
    }
    forall k | k in added
      ensures Get(Padded(row, columns), k) == Some("")
    {
      var i :| 0 <= i < |added| && added[i] == k;
      assert cells[i].0 == k;
    }
  }

  /**
   * Row `i` after the write: its columns are the sheet's columns followed by
   * the result columns it lacked; its own cells outside the result columns
   * are kept; a success leaves its categories, "success" and no error, a
   * failure "failed" and its error; a row without a result has empty
   * cells in the columns the write added.
   */
  lemma WrittenRowShape(row: Row, columns: seq<string>, results: seq<Manager.Processed>, i: nat)
    requires Keys(row) == columns && DistinctKeys(row)
    ensures Keys(WrittenRow(row, columns, results, i)) == columns + Missing(WRITTEN, columns)
    ensures forall k :: k in columns && k !in WRITTEN ==> Get(WrittenRow(row, columns, results, i), k) == Get(row, k)
    ensures i < |results| && results[i].Classified? ==>
              Get(WrittenRow(row, columns, results, i), CATEGORY_COLUMN) == Some(GetOr(results[i].classification, "main_category", ""))
              && Get(WrittenRow(row, columns, results, i), SUBCATEGORY_COLUMN) == Some(GetOr(results[i].classification, "sub_category", ""))
              && Get(WrittenRow(row, columns, results, i), STATE_COLUMN) == Some("success")
              && Get(WrittenRow(row, columns, results, i), ERROR_COLUMN) == Some("")
    ensures i < |results| && results[i].Unclassified? ==>
              Get(WrittenRow(row, columns, results, i), STATE_COLUMN) == Some("failed")
              && Get(WrittenRow(row, columns, results, i), ERROR_COLUMN) == Some(results[i].error)
    ensures i >= |results| ==>
              forall k :: k in Missing(WRITTEN, columns) ==> Get(WrittenRow(row, columns, results, i), k) == Some("")
  {
    var padded := Padded(row, columns);
    PaddedShape(row, columns);
    PaddedColumns(row, columns);
    PaddedCells(row, columns);
    if i < |results| {
      match results[i]
      case Classified(_, c) =>
        SuccessKeepsColumns(padded, c);
        SuccessKeepsCells(padded, c);
        SuccessWritten(padded, c);
      case Unclassified(_, e) =>
        FailureKeepsColumns(padded, e);
        FailureKeepsCells(padded, e);
        FailureWritten(padded, e);
    }
  }
}
