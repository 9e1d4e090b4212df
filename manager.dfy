/**
 * The material manager of the batch tool: it shows each material to the
 * classifier under the classifier's own field names, turns the answer into
 * a success or failure record without ever raising, reads materials from a
 * spreadsheet (falling back to fixed column positions for the 2025 standard
 * layout), and shapes each record into an output row: the original columns
 * followed by category, sub-category, status, source and error.
 */
module Manager {
  import opened Wrappers
  import opened Text
  import opened Assoc
  import opened Material

  /** `_extract_material_info`: the material as the classifier is shown it. */
  function ExtractInfo(m: Row): Row {
    [(NAME, Field(m, NAME)), (MODEL, Field(m, DRAWING_MODEL)), (BRAND, Field(m, CATEGORY_BRAND)),
     (SUPPLIER, Field(m, SUPPLIER)), (MATERIAL, Field(m, MATERIAL))]
  }

  /**
   * The classifier is shown the material's name, supplier and material,
   * its drawing/model as the model and its category/brand as the brand,
   * each "" when the material lacks it; the classifier's own reading of
   * model and brand therefore sees the material's values.
   */
  lemma ExtractedFields(m: Row)
    ensures Keys(ExtractInfo(m)) == [NAME, MODEL, BRAND, SUPPLIER, MATERIAL]
    ensures Field(ExtractInfo(m), NAME) == Field(m, NAME)
    ensures Field(ExtractInfo(m), SUPPLIER) == Field(m, SUPPLIER)
    ensures Field(ExtractInfo(m), MATERIAL) == Field(m, MATERIAL)
    ensures FieldOr(ExtractInfo(m), DRAWING_MODEL, MODEL) == Field(m, DRAWING_MODEL)
    ensures FieldOr(ExtractInfo(m), CATEGORY_BRAND, BRAND) == Field(m, CATEGORY_BRAND)
  {
    var info := ExtractInfo(m);
    assert DistinctKeys(info);
    GetAt(info, 0);
    GetAt(info, 1);
    GetAt(info, 2);
    GetAt(info, 3);
    GetAt(info, 4);
    GetFound(info, DRAWING_MODEL);
    GetFound(info, CATEGORY_BRAND);
  }

  /** A processed material: the original record with the classification, or with the error. */
  datatype Processed =
    | Classified(original: Row, classification: Pairs<string, string>)
    | Unclassified(original: Row, error: string)

  /**
   * `process_material`: no field is required. Every material, however
   * incomplete, is put to the classifier, and its exception becomes a
   * failure record instead of propagating.
   */
  function ProcessMaterial(m: Row, classify: Row -> Answer): (r: Processed)
    ensures r.original == m
    ensures r.Classified? <==> classify(ExtractInfo(m)).Ok?
    ensures r.Classified? ==> r.classification == classify(ExtractInfo(m)).value
    ensures r.Unclassified? ==> r.error == classify(ExtractInfo(m)).error
  {
    match classify(ExtractInfo(m))
    case Ok(c) => Classified(m, c)
    case Err(e) => Unclassified(m, e)
  }

  /**
   * The outcome depends on nothing but the five fields the classifier is
   * shown: two materials that agree on them are classified alike, whatever
   * other columns they carry.
   */
  lemma SameFieldsSameOutcome(m1: Row, m2: Row, classify: Row -> Answer)
    requires Field(m1, NAME) == Field(m2, NAME) && Field(m1, DRAWING_MODEL) == Field(m2, DRAWING_MODEL)
    requires Field(m1, CATEGORY_BRAND) == Field(m2, CATEGORY_BRAND) && Field(m1, SUPPLIER) == Field(m2, SUPPLIER)
    requires Field(m1, MATERIAL) == Field(m2, MATERIAL)
    ensures ProcessMaterial(m1, classify).Classified? == ProcessMaterial(m2, classify).Classified?
    ensures ProcessMaterial(m1, classify).Classified? ==>
      ProcessMaterial(m1, classify).classification == ProcessMaterial(m2, classify).classification
    ensures ProcessMaterial(m1, classify).Unclassified? ==>
      ProcessMaterial(m1, classify).error == ProcessMaterial(m2, classify).error
  {
    assert ExtractInfo(m1) == ExtractInfo(m2);
  }

  // ---------------------------------------------------------------------------
  // Reading materials

  /** The four standard fields, as the readers name them. */
  const STANDARD := [NAME, DRAWING_MODEL, CATEGORY_BRAND, MATERIAL]

  /** The material of one CSV row: the four standard fields, "" where the row lacks one. */
  function CsvMaterial(row: Row): Row {
    [(NAME, Field(row, NAME)), (DRAWING_MODEL, Field(row, DRAWING_MODEL)), (MATERIAL, Field(row, MATERIAL)),
     (CATEGORY_BRAND, Field(row, CATEGORY_BRAND))]
  }

  /** A CSV material has exactly the standard fields, each read from its row. */
  lemma CsvMaterialFields(row: Row)
    ensures Keys(CsvMaterial(row)) == [NAME, DRAWING_MODEL, MATERIAL, CATEGORY_BRAND]
    ensures forall k :: k in STANDARD ==> Field(CsvMaterial(row), k) == Field(row, k)
  {
    var m := CsvMaterial(row);
    assert DistinctKeys(m);
    GetAt(m, 0);
    GetAt(m, 1);
    GetAt(m, 2);
    GetAt(m, 3);
  }

  /** `read_materials_from_csv`: one material per row, in order; no row is skipped. */
  method ReadCsv(rows: seq<Row>) returns (materials: seq<Row>)
    ensures |materials| == |rows|
    ensures forall i :: 0 <= i < |rows| ==> materials[i] == CsvMaterial(rows[i])
  {
    materials := [];
    for i := 0 to |rows|
      invariant |materials| == i
      invariant forall j :: 0 <= j < i ==> materials[j] == CsvMaterial(rows[j])
    {
      materials := materials + [CsvMaterial(rows[i])];
    }
  }

  /** `str(cell).strip()` of the cell in column position `i`, when the row has one. */
  function Positional(row: Row, i: nat): string
    requires i < |row|
  {
    Strip(row[i].1)
  }

  /**
   * A standard field of an Excel row: its own cell when non-empty, else the
   * stripped cell at position `i` when the row is long enough, else "".
   */
  function WithFallback(row: Row, k: string, i: nat): string {
    if Field(row, k) == [] && i < |row| then Positional(row, i) else Field(row, k)
  }

  /**
   * The material of one Excel row: every original column, with the name,
   * model and brand falling back to columns 5, 10 and 9 of the 2025
   * standard layout, and the material read as is.
   */
  function ExcelMaterial(row: Row): Row {
    PutAll(row, [(NAME, WithFallback(row, NAME, 4)), (DRAWING_MODEL, WithFallback(row, DRAWING_MODEL, 9)),
                 (CATEGORY_BRAND, WithFallback(row, CATEGORY_BRAND, 8)), (MATERIAL, Field(row, MATERIAL))])
  }

  /**
   * An Excel material keeps every original column, in order, at the front,
   * reads as the row on every non-standard column, and holds the standard
   * fields with their positional fallbacks.
   */
  lemma ExcelMaterialShape(row: Row)
    requires DistinctKeys(row)
    ensures DistinctKeys(ExcelMaterial(row))
    ensures |row| <= |ExcelMaterial(row)| && Keys(ExcelMaterial(row))[..|row|] == Keys(row)
    ensures forall k :: k !in STANDARD ==> Get(ExcelMaterial(row), k) == Get(row, k)
    ensures Field(row, NAME) != [] ==> Field(ExcelMaterial(row), NAME) == Field(row, NAME)
    ensures Field(row, NAME) == [] && |row| > 4 ==> Field(ExcelMaterial(row), NAME) == Strip(row[4].1)
    ensures Field(row, NAME) == [] && |row| <= 4 ==> Field(ExcelMaterial(row), NAME) == []
    ensures Field(row, DRAWING_MODEL) != [] ==> Field(ExcelMaterial(row), DRAWING_MODEL) == Field(row, DRAWING_MODEL)
    ensures Field(row, DRAWING_MODEL) == [] && |row| > 9 ==> Field(ExcelMaterial(row), DRAWING_MODEL) == Strip(row[9].1)
    ensures Field(row, DRAWING_MODEL) == [] && |row| <= 9 ==> Field(ExcelMaterial(row), DRAWING_MODEL) == []
    ensures Field(row, CATEGORY_BRAND) != [] ==> Field(ExcelMaterial(row), CATEGORY_BRAND) == Field(row, CATEGORY_BRAND)
    ensures Field(row, CATEGORY_BRAND) == [] && |row| > 8 ==> Field(ExcelMaterial(row), CATEGORY_BRAND) == Strip(row[8].1)
    ensures Field(row, CATEGORY_BRAND) == [] && |row| <= 8 ==> Field(ExcelMaterial(row), CATEGORY_BRAND) == []
    ensures Field(ExcelMaterial(row), MATERIAL) == Field(row, MATERIAL)
  {
    var kvs := [(NAME, WithFallback(row, NAME, 4)), (DRAWING_MODEL, WithFallback(row, DRAWING_MODEL, 9)),
                (CATEGORY_BRAND, WithFallback(row, CATEGORY_BRAND, 8)), (MATERIAL, Field(row, MATERIAL))];
    assert DistinctKeys(kvs);
    UpdateShape(row, kvs);
    assert kvs[0].0 == NAME && kvs[1].0 == DRAWING_MODEL && kvs[2].0 == CATEGORY_BRAND && kvs[3].0 == MATERIAL;
  }

  /** `read_materials_from_excel`: one material per row, in order; no row is skipped. */
  method ReadExcel(rows: seq<Row>) returns (materials: seq<Row>)
    ensures |materials| == |rows|
    ensures forall i :: 0 <= i < |rows| ==> materials[i] == ExcelMaterial(rows[i])
  {
    materials := [];
    for i := 0 to |rows|
      invariant |materials| == i
      invariant forall j :: 0 <= j < i ==> materials[j] == ExcelMaterial(rows[j])
    {
      var row := rows[i];
      var name := Field(row, NAME);
      if name == [] && |row| > 4 {
        name := Strip(row[4].1);
      }
      var model := Field(row, DRAWING_MODEL);
      if model == [] && |row| > 9 {
        model := Strip(row[9].1);
      }
      var brand := Field(row, CATEGORY_BRAND);
      if brand == [] && |row| > 8 {
        brand := Strip(row[8].1);
      }
      var standardized := [(NAME, name), (DRAWING_MODEL, model), (CATEGORY_BRAND, brand), (MATERIAL, Field(row, MATERIAL))];
      materials := materials + [PutAll(row, standardized)];
    }
  }

  // ---------------------------------------------------------------------------
  // Writing results

  /** The columns an output row adds, in order. */
  const OUTPUT := [CATEGORY_COLUMN, SUBCATEGORY_COLUMN, STATUS_COLUMN, SOURCE_COLUMN, ERROR_COLUMN]

  /** The outcome cells of a record: the classification and its source, or the error. */
  function OutcomeCells(p: Processed): Pairs<string, string> {
    match p
    case Classified(_, c) =>
      [(CATEGORY_COLUMN, GetOr(c, "main_category", "")), (SUBCATEGORY_COLUMN, GetOr(c, "sub_category", "")),
       (STATUS_COLUMN, "success"), (SOURCE_COLUMN, GetOr(c, "classification_source", "")), (ERROR_COLUMN, "")]
    case Unclassified(_, e) =>
      [(CATEGORY_COLUMN, ""), (SUBCATEGORY_COLUMN, ""), (STATUS_COLUMN, "failed"), (SOURCE_COLUMN, ""), (ERROR_COLUMN, e)]
  }

  /** The output row of a record: its original data updated with the outcome cells. */
  function ResultRow(p: Processed): Row {
    PutAll(p.original, OutcomeCells(p))
  }

  /**
   * An output row keeps the original columns in front, in order, and their
   * values unless they are output columns. A success carries the
   * classification's category, sub-category and source with status
   * "success" and no error; a failure carries empty categories and source,
   * status "failed" and the error.
   */
  lemma ResultRowShape(p: Processed)
    requires DistinctKeys(p.original)
    ensures DistinctKeys(ResultRow(p))
    ensures |p.original| <= |ResultRow(p)| && Keys(ResultRow(p))[..|p.original|] == Keys(p.original)
    ensures forall k :: k !in OUTPUT ==> Get(ResultRow(p), k) == Get(p.original, k)
    ensures p.Classified? ==>
              Field(ResultRow(p), CATEGORY_COLUMN) == GetOr(p.classification, "main_category", "")
              && Field(ResultRow(p), SUBCATEGORY_COLUMN) == GetOr(p.classification, "sub_category", "")
              && Field(ResultRow(p), STATUS_COLUMN) == "success"
              && Field(ResultRow(p), SOURCE_COLUMN) == GetOr(p.classification, "classification_source", "")
              && Get(ResultRow(p), ERROR_COLUMN) == Some("")
    ensures p.Unclassified? ==>
              Get(ResultRow(p), CATEGORY_COLUMN) == Some("") && Get(ResultRow(p), SUBCATEGORY_COLUMN) == Some("")
              && Field(ResultRow(p), STATUS_COLUMN) == "failed" && Get(ResultRow(p), SOURCE_COLUMN) == Some("")
              && Field(ResultRow(p), ERROR_COLUMN) == p.error
  {
    var cells := OutcomeCells(p);
    assert DistinctKeys(cells);
    UpdateShape(p.original, cells);
    assert cells[0].0 == CATEGORY_COLUMN && cells[1].0 == SUBCATEGORY_COLUMN && cells[2].0 == STATUS_COLUMN;
    assert cells[3].0 == SOURCE_COLUMN && cells[4].0 == ERROR_COLUMN;
  }

  /** The row loop of `write_results_to_csv`: one output row per record, in order. */
  method ResultRows(results: seq<Processed>) returns (rows: seq<Row>)
    ensures |rows| == |results|
    ensures forall i :: 0 <= i < |results| ==> rows[i] == ResultRow(results[i])
  {
    rows := [];
    for i := 0 to |results|
      invariant |rows| == i
      invariant forall j :: 0 <= j < i ==> rows[j] == ResultRow(results[j])
    {
      rows := rows + [ResultRow(results[i])];
    }
  }

  /** The rows a file holds; a file that does not exist holds none. */
  function Existing(files: map<string, seq<Row>>, path: string): seq<Row> {
    if path in files then files[path] else []
  }

  /**
   * `write_results_incremental`: with neither path given (an empty path
   * counts as not given) nothing is written; otherwise the record's output
   * row is appended to the CSV file, then to the Excel file.
   */
  function Incremental(p: Processed, excelPath: string, csvPath: string, files: map<string, seq<Row>>): map<string, seq<Row>> {
    if excelPath == [] && csvPath == [] then files
    else
      var row := ResultRow(p);
      var afterCsv := if csvPath != [] then files[csvPath := Existing(files, csvPath) + [row]] else files;
      if excelPath != [] then afterCsv[excelPath := Existing(afterCsv, excelPath) + [row]] else afterCsv
  }

  /**
   * Incremental writing only ever appends the record's output row, once to
   * each named file, and touches no other file.
   */
  lemma IncrementalShape(p: Processed, excelPath: string, csvPath: string, files: map<string, seq<Row>>)
    ensures excelPath == [] && csvPath == [] ==> Incremental(p, excelPath, csvPath, files) == files
    ensures forall f :: f != excelPath && f != csvPath ==>
              (f in Incremental(p, excelPath, csvPath, files) <==> f in files)
              && (f in files ==> Incremental(p, excelPath, csvPath, files)[f] == files[f])
    ensures csvPath != [] && csvPath != excelPath ==>
              Existing(Incremental(p, excelPath, csvPath, files), csvPath) == Existing(files, csvPath) + [ResultRow(p)]
    ensures excelPath != [] && excelPath != csvPath ==>
              Existing(Incremental(p, excelPath, csvPath, files), excelPath) == Existing(files, excelPath) + [ResultRow(p)]
    ensures excelPath != [] && excelPath == csvPath ==>
              Existing(Incremental(p, excelPath, csvPath, files), excelPath) == Existing(files, excelPath) + [ResultRow(p), ResultRow(p)]
  {
  }
}
