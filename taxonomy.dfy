/**
 * The closed taxonomy: an insertion-ordered mapping from the normalised
 * (main, sub) key to the stored entry, and its loader from the rows of the
 * classification-explanation sheet.
 */
module Taxonomy {
  import opened Wrappers
  import opened Text
  import opened Assoc

  /**
   * One taxonomy value: the original main and sub category as written in the
   * sheet, the keyword cell, the explanation (or notes) cell and the
   * common-brands cell. Loaders without a column leave it "".
   */
  datatype Entry = Entry(main: string, sub: string, keywords: string, notes: string, brands: string)

  type Key = (string, string)

  type Table = Pairs<Key, Entry>

  /** The lookup key of a (main, sub) pair. */
  function KeyOf(main: string, sub: string): Key {
    (KeyNorm(main), KeyNorm(sub))
  }

  /**
   * What every loaded taxonomy satisfies: distinct keys, each the
   * normalisation of its entry's non-empty original spelling.
   */
  predicate WellFormed(t: Table) {
    DistinctKeys(t) &&
    forall p :: p in t ==> p.0 == KeyOf(p.1.main, p.1.sub) && p.1.main != [] && p.1.sub != []
  }

  /** Which sheet layout a loader reads: with or without the common-brands column. */
  datatype Layout = WithBrands | WithoutBrands

  /** The highest column index the loader reads (cols[5] or cols[4]). */
  function LastColumn(layout: Layout): nat {
    if layout == WithBrands then 5 else 4
  }

  type Sheet = seq<seq<string>>

  /** Every row among the first `n` has the columns the loader reads. */
  predicate WideUpTo(rows: Sheet, n: nat, layout: Layout) {
    n <= |rows| && forall i :: 0 <= i < n ==> |rows[i]| > LastColumn(layout)
  }

  /** A cell as the loader reads it: `str(v).strip()`, with the text "nan" (an empty cell) as "". */
  function Cell(row: seq<string>, c: nat): string
    requires c < |row|
  {
    var v := Strip(row[c]);
    if v == "nan" then "" else v
  }

  /** An empty cell reads as "", never as the text "nan". */
  lemma CellNeverNan(row: seq<string>, c: nat)
    requires c < |row|
    ensures Cell(row, c) != "nan"
    ensures Strip(row[c]) == "nan" ==> Cell(row, c) == ""
  {
  }

  /** The current main category after the first `n` rows: the last non-empty main cell, or none (""). */
  function Carried(rows: Sheet, n: nat, layout: Layout): string
    requires WideUpTo(rows, n, layout)
  {
    if n == 0 then ""
    else if Cell(rows[n - 1], 1) != "" then Cell(rows[n - 1], 1)
    else Carried(rows, n - 1, layout)
  }

  /** Row `i` has a current main category and a non-empty sub cell, so it stores an entry. */
  predicate Adds(rows: Sheet, i: nat, layout: Layout)
    requires WideUpTo(rows, i + 1, layout)
  {
    Carried(rows, i + 1, layout) != "" && Cell(rows[i], 2) != ""
  }

  /** The entry row `i` stores. */
  function RowEntry(rows: Sheet, i: nat, layout: Layout): Entry
    requires WideUpTo(rows, i + 1, layout)
  {
    var row := rows[i];
    Entry(Carried(rows, i + 1, layout), Cell(row, 2), Cell(row, 3), Cell(row, 4),
          if layout == WithBrands then Cell(row, 5) else "")
  }

  /** The normalised key of the entry row `i` stores. */
  function RowKey(rows: Sheet, i: nat, layout: Layout): Key
    requires WideUpTo(rows, i + 1, layout)
  {
    var e := RowEntry(rows, i, layout);
    KeyOf(e.main, e.sub)
  }

  /** The assignments `mapping[key] = entry` made by the first `n` rows, in row order. */
  function Stores(rows: Sheet, n: nat, layout: Layout): Pairs<Key, Entry>
    requires WideUpTo(rows, n, layout)
  {
    if n == 0 then []
    else if Adds(rows, n - 1, layout) then Stores(rows, n - 1, layout) + [(RowKey(rows, n - 1, layout), RowEntry(rows, n - 1, layout))]
    else Stores(rows, n - 1, layout)
  }

  /** The mapping after the first `n` rows. */
  function Loaded(rows: Sheet, n: nat, layout: Layout): Table
    requires WideUpTo(rows, n, layout)
  {
    PutAll([], Stores(rows, n, layout))
  }

  datatype LoadError =
    | ColumnMissing  // `cols[k]` past the last column: IndexError
    | NoRules        // ValueError: no valid classification rule loaded

  /**
   * `load_classification_standards` over the sheet's rows: carry the main
   * category forward, store each row with a sub category under its
   * normalised key, and fail if a row lacks a column or nothing was stored.
   */
  method LoadStandards(rows: Sheet, layout: Layout) returns (r: Result<Table, LoadError>)
    ensures !WideUpTo(rows, |rows|, layout) ==> r == Err(ColumnMissing)
    ensures WideUpTo(rows, |rows|, layout) ==>
      r == if Loaded(rows, |rows|, layout) == [] then Err(NoRules) else Ok(Loaded(rows, |rows|, layout))
    ensures r.Ok? ==> WellFormed(r.value) && r.value != []
  {
    var mapping: Table := [];
    var current := "";
    var i := 0;
    while i < |rows|
      invariant 0 <= i <= |rows| && WideUpTo(rows, i, layout)
      invariant current == Carried(rows, i, layout)
      invariant mapping == Loaded(rows, i, layout)
    {
      var row := rows[i];
      if |row| <= LastColumn(layout) {
        assert !WideUpTo(rows, |rows|, layout) by {
          assert |rows[i]| <= LastColumn(layout);
        }
        return Err(ColumnMissing);
      }
      assert WideUpTo(rows, i + 1, layout);
      mapping, current := LoadRow(rows, i, layout, mapping, current);
      i := i + 1;
    }
    LoadedWellFormed(rows, |rows|, layout);
    if mapping == [] {
      return Err(NoRules);
    }
    return Ok(mapping);
  }

  /** The body of the loader's loop for row `i`, whose columns are all there. */
  method LoadRow(rows: Sheet, i: nat, layout: Layout, mapping: Table, current: string) returns (mapping': Table, current': string)
    requires WideUpTo(rows, i + 1, layout)
    requires current == Carried(rows, i, layout) && mapping == Loaded(rows, i, layout)
    ensures current' == Carried(rows, i + 1, layout) && mapping' == Loaded(rows, i + 1, layout)
  {
    RowStep(rows, i, layout);
    var row := rows[i];
    var mainCell := Cell(row, 1);
    var subCell := Cell(row, 2);
    var keywords := Cell(row, 3);
    var notes := Cell(row, 4);
    var brands := if layout == WithBrands then Cell(row, 5) else "";
    current' := current;
    mapping' := mapping;
    if mainCell != "" {
      current' := mainCell;
    }
    if current' != "" && subCell != "" {
      mapping' := Put(mapping, KeyOf(current', subCell), Entry(current', subCell, keywords, notes, brands));
    }
  }

  /**
   * One more row: a non-empty main cell becomes the current main category,
   * and the mapping gets the row's entry under its key when the row adds one.
   */
  lemma RowStep(rows: Sheet, i: nat, layout: Layout)
    requires WideUpTo(rows, i + 1, layout)
    ensures var row := rows[i];
      var main := if Cell(row, 1) != "" then Cell(row, 1) else Carried(rows, i, layout);
      main == Carried(rows, i + 1, layout) &&
      Loaded(rows, i + 1, layout) ==
        if main != "" && Cell(row, 2) != "" then
          Put(Loaded(rows, i, layout), KeyOf(main, Cell(row, 2)),
              Entry(main, Cell(row, 2), Cell(row, 3), Cell(row, 4), if layout == WithBrands then Cell(row, 5) else ""))
        else Loaded(rows, i, layout)
  {
    if Adds(rows, i, layout) {
      PutAllSnoc([], Stores(rows, i, layout), RowKey(rows, i, layout), RowEntry(rows, i, layout));
    }
  }

  /** Every stored assignment is under the normalised key of a non-empty main and sub category. */
  lemma {:induction false} StoresWellKeyed(rows: Sheet, n: nat, layout: Layout)
    requires WideUpTo(rows, n, layout)
    ensures forall p :: p in Stores(rows, n, layout) ==>
      p.0 == KeyOf(p.1.main, p.1.sub) && p.1.main != [] && p.1.sub != []
  {
    if n > 0 {
      StoresWellKeyed(rows, n - 1, layout);
      var prev := Stores(rows, n - 1, layout);
      if Adds(rows, n - 1, layout) {
        RowKeyed(rows, n - 1, layout);
        var last := (RowKey(rows, n - 1, layout), RowEntry(rows, n - 1, layout));
        assert Stores(rows, n, layout) == prev + [last];
        forall p | p in prev + [last]
          ensures p.0 == KeyOf(p.1.main, p.1.sub) && p.1.main != [] && p.1.sub != []
        {
          if p != last {
            assert p in prev;
          }
        }
      }
    }
  }

  /** A row that stores, stores under the key of its entry's non-empty categories. */
  lemma RowKeyed(rows: Sheet, i: nat, layout: Layout)
    requires WideUpTo(rows, i + 1, layout) && Adds(rows, i, layout)
    ensures var e := RowEntry(rows, i, layout);
      RowKey(rows, i, layout) == KeyOf(e.main, e.sub) && e.main != [] && e.sub != []
  {
  }

  /** A loaded mapping is well formed and holds only stored assignments. */
  lemma LoadedWellFormed(rows: Sheet, n: nat, layout: Layout)
    requires WideUpTo(rows, n, layout)
    ensures WellFormed(Loaded(rows, n, layout))
    ensures forall p :: p in Loaded(rows, n, layout) ==> p in Stores(rows, n, layout)
  {
    StoresWellKeyed(rows, n, layout);
    PutAllShape([], Stores(rows, n, layout));
  }

  /**
   * Among rows with the same normalised key, the last one wins: the mapping
   * holds the entry of the last assignment to each key.
   */
  lemma LastRowWins(rows: Sheet, n: nat, layout: Layout, k: Key)
    requires WideUpTo(rows, n, layout)
    ensures Get(Loaded(rows, n, layout), k) == LastValue(Stores(rows, n, layout), k)
  {
    GetPutAll([], Stores(rows, n, layout), k);
  }

  /** The assignments of a row are appended after those of the rows before it. */
  lemma StoresGrow(rows: Sheet, n: nat, layout: Layout)
    requires WideUpTo(rows, n, layout) && n > 0
    ensures forall p :: p in Stores(rows, n - 1, layout) ==> p in Stores(rows, n, layout)
    ensures Adds(rows, n - 1, layout) ==> (RowKey(rows, n - 1, layout), RowEntry(rows, n - 1, layout)) in Stores(rows, n, layout)
  {
  }

  /** Each row that adds an entry stores its own key and entry. */
  lemma {:induction false} RowsAreStored(rows: Sheet, n: nat, layout: Layout)
    requires WideUpTo(rows, n, layout)
    ensures forall i :: 0 <= i < n && Adds(rows, i, layout) ==>
      (RowKey(rows, i, layout), RowEntry(rows, i, layout)) in Stores(rows, n, layout)
  {
    if n > 0 {
      RowsAreStored(rows, n - 1, layout);
      StoresGrow(rows, n, layout);
    }
  }

  /** Nothing is stored but the key and entry of a row that adds one. */
  lemma {:induction false} OnlyRowsAreStored(rows: Sheet, n: nat, layout: Layout)
    requires WideUpTo(rows, n, layout)
    ensures forall p :: p in Stores(rows, n, layout) ==>
      exists i :: 0 <= i < n && Adds(rows, i, layout) && p == (RowKey(rows, i, layout), RowEntry(rows, i, layout))
  {
    if n > 0 {
      OnlyRowsAreStored(rows, n - 1, layout);
      forall p | p in Stores(rows, n, layout)
        ensures exists i :: 0 <= i < n && Adds(rows, i, layout) && p == (RowKey(rows, i, layout), RowEntry(rows, i, layout))
      {
        if p !in Stores(rows, n - 1, layout) {
          assert Adds(rows, n - 1, layout) && p == (RowKey(rows, n - 1, layout), RowEntry(rows, n - 1, layout));
        }
      }
    }
  }
}
