/**
 * A material record: one spreadsheet row as a Python dict from column name to
 * cell text, and the column names the engine reads.
 */
module Material {
  import opened Wrappers
  import opened Assoc

  type Row = Pairs<string, string>

  /** A spreadsheet read into a frame: its column names and its rows, each keyed by column. */
  datatype Sheet = Sheet(columns: seq<string>, rows: seq<Row>)

  const NAME := "物料名称"
  const DRAWING_MODEL := "图号/型号"
  const MODEL := "型号"
  const CATEGORY_BRAND := "分类/品牌"
  const BRAND := "品牌"
  const SUPPLIER := "供应商"
  const MATERIAL := "材料"

  /** The columns the batch scripts write their outcome to. */
  const CATEGORY_COLUMN := "功能大类"
  const SUBCATEGORY_COLUMN := "二级分类"
  const STATUS_COLUMN := "分类状态"
  const SOURCE_COLUMN := "分类来源"
  const ERROR_COLUMN := "错误信息"

  /**
   * What a classifier gives the scripts that drive it: the fields of its
   * result dict, or the message of the exception it raised.
   */
  type Answer = Result<Pairs<string, string>, string>

  /** `row.get(k, "")`. */
  function Field(row: Row, k: string): string {
    GetOr(row, k, "")
  }

  /** `row.get(k1, "") or row.get(k2, "")`: the second column only when the first is empty. */
  function FieldOr(row: Row, k1: string, k2: string): (r: string)
    ensures Field(row, k1) != [] ==> r == Field(row, k1)
    ensures Field(row, k1) == [] ==> r == Field(row, k2)
  {
    if Field(row, k1) != [] then Field(row, k1) else Field(row, k2)
  }

  /** Setting one column leaves every column the matcher reads unchanged, when it is none of them. */
  lemma OtherFieldsKept(row: Row, k: string, v: string)
    requires k !in {NAME, DRAWING_MODEL, MODEL, CATEGORY_BRAND, BRAND, MATERIAL}
    ensures Field(Put(row, k, v), NAME) == Field(row, NAME)
    ensures FieldOr(Put(row, k, v), DRAWING_MODEL, MODEL) == FieldOr(row, DRAWING_MODEL, MODEL)
    ensures FieldOr(Put(row, k, v), CATEGORY_BRAND, BRAND) == FieldOr(row, CATEGORY_BRAND, BRAND)
    ensures Field(Put(row, k, v), MATERIAL) == Field(row, MATERIAL)
  {
    GetPut(row, k, v, NAME);
    GetPut(row, k, v, DRAWING_MODEL);
    GetPut(row, k, v, MODEL);
    GetPut(row, k, v, CATEGORY_BRAND);
    GetPut(row, k, v, BRAND);
    GetPut(row, k, v, MATERIAL);
  }
}
