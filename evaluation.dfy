/**
 * The validation script: it loads spreadsheet rows that people have already
 * classified, puts each material to the classifier, compares the answer with
 * the human labels after a normalisation that ignores a leading index
 * number, case, spaces and tabs, and sums the comparisons up into accuracy
 * figures and a confusion tally of (human, AI) label pairs.
 *
 * The classifier is a parameter: a function from the material it is shown
 * to the answer it gives (its result fields) or the message of the error it
 * raised.
 */
module Evaluation {
  import opened Wrappers
  import opened Text
  import opened Assoc
  import opened Lists
  import opened Material

  const CODE := "物料编码"
  const DESCRIPTION := "材料/描述"
  const BRAND_OR_SUPPLIER := "对应品牌或供应商"
  const HUMAN_MAIN := CATEGORY_COLUMN
  const HUMAN_SUB := SUBCATEGORY_COLUMN

  /** The columns a validation sheet must have. */
  const REQUIRED := [NAME, DRAWING_MODEL, CATEGORY_BRAND, HUMAN_MAIN, HUMAN_SUB]

  // ---------------------------------------------------------------------------
  // Category normalisation

  /** What `\d` matches here: ASCII and full-width decimal digits. */
  predicate IsDigit(c: char) {
    ('0' <= c <= '9') || ('０' <= c <= '９')
  }

  /** The length of the run of digits `s` starts with. */
  function DigitRun(s: string): (n: nat)
    ensures n <= |s|
  {
    if s != [] && IsDigit(s[0]) then 1 + DigitRun(s[1..]) else 0
  }

  /** `re.sub(r'^\d+\s+', '', s)`: a leading number followed by whitespace is dropped with that whitespace. */
  function DropIndex(s: string): string
  {
    var n := DigitRun(s);
    if 0 < n < |s| && IsSpace(s[n]) then LStrip(s[n..]) else s
  }

  /**
   * `normalize_category`: "" for an empty label; otherwise strip, drop a
   * leading index number, lower-case, and delete spaces and tabs.
   */
  function NormalizeCategory(category: string): string
  {
    if category == [] then []
    else Remove(Remove(Lower(DropIndex(Strip(category))), ' '), '\t')
  }

  /** Digits followed by a non-digit: the run is exactly the digits. */
  lemma {:induction false} DigitRunOf(d: string, rest: string)
    requires forall i :: 0 <= i < |d| ==> IsDigit(d[i])
    requires rest == [] || !IsDigit(rest[0])
    ensures DigitRun(d + rest) == |d|
    decreases |d|
  {
    if d == [] {
      assert d + rest == rest;
    } else {
      assert (d + rest)[1..] == d[1..] + rest;
      DigitRunOf(d[1..], rest);
    }
  }

  /** Dropping the index of a label with trimmed ends leaves a label with trimmed ends. */
  lemma DropIndexTrimmed(s: string)
    requires Trimmed(s)
    ensures Trimmed(DropIndex(s))
  {
    var n := DigitRun(s);
    if 0 < n < |s| && IsSpace(s[n]) {
      var tail := s[n..];
      LStripShape(tail);
      var l := LStrip(tail);
      if l != [] {
        assert l[|l| - 1] == tail[|tail| - 1] == s[|s| - 1];
      }
    }
  }

  /**
   * Category comparison is the taxonomy-key normalisation applied after the
   * leading index is dropped: labels equal under `KeyNorm` compare equal.
   */
  lemma CategoryIsKeyNorm(category: string)
    requires category != []
    ensures NormalizeCategory(category) == KeyNorm(DropIndex(Strip(category)))
  {
    StripTrimmed(category);
    DropIndexTrimmed(Strip(category));
    StripOfTrimmed(DropIndex(Strip(category)));
  }

  /** A normalised label has trimmed ends, no upper-case letter, no space and no tab. */
  lemma NormalizedShape(category: string)
    ensures Trimmed(NormalizeCategory(category))
    ensures forall i :: 0 <= i < |NormalizeCategory(category)| ==> !IsUpper(NormalizeCategory(category)[i])
    ensures ' ' !in NormalizeCategory(category) && '\t' !in NormalizeCategory(category)
  {
    if category != [] {
      CategoryIsKeyNorm(category);
      KeyNormShape(DropIndex(Strip(category)));
    }
  }

  /** A leading index number and the whitespace after it do not change the normalised label. */
  lemma IndexIgnored(digits: string, spaces: string, tail: string)
    requires digits != [] && forall i :: 0 <= i < |digits| ==> IsDigit(digits[i])
    requires spaces != [] && forall i :: 0 <= i < |spaces| ==> IsSpace(spaces[i])
    requires tail != [] && Trimmed(tail) && !IsDigit(tail[0])
    ensures NormalizeCategory(digits + spaces + tail) == NormalizeCategory(tail)
  {
    var s := digits + spaces + tail;
    assert s[0] == digits[0] && s[|s| - 1] == tail[|tail| - 1];
    StripOfTrimmed(s);
    assert s == digits + (spaces + tail);
    DigitRunOf(digits, spaces + tail);
    assert s[|digits|] == spaces[0];
    assert s[|digits|..] == spaces + tail;
    LStripSpaces(spaces, tail);
    StripOfTrimmed(tail);
    assert DigitRun(tail) == 0;
  }

  /** A label already in key form, not starting with a digit, is its own normalisation. */
  lemma NormalizeOfKey(tail: string)
    requires tail != [] && Trimmed(tail) && !IsDigit(tail[0])
    requires forall i :: 0 <= i < |tail| ==> !IsUpper(tail[i])
    requires ' ' !in tail && '\t' !in tail
    ensures NormalizeCategory(tail) == tail
  {
    StripOfTrimmed(tail);
    assert DigitRun(tail) == 0;
    LowerOfLower(tail);
    RemoveAbsent(tail, ' ');
    RemoveAbsent(tail, '\t');
  }

  /** A category name as the taxonomy spells it is its own normalisation. */
  lemma NormalizeExampleName()
    ensures NormalizeCategory("辅料/标识广告") == "辅料/标识广告"
  {
    var name := "辅料/标识广告";
    assert forall i :: 0 <= i < |name| ==> !IsSpace(name[i]) && !IsUpper(name[i]) && name[i] != '\t';
    NormalizeOfKey(name);
  }

  /** The documented example: "24 辅料/标识广告" normalises to "辅料/标识广告". */
  lemma NormalizeExample()
    ensures NormalizeCategory("24 辅料/标识广告") == "辅料/标识广告"
  {
    var name := "辅料/标识广告";
    assert "24 辅料/标识广告" == "24" + " " + name;
    assert !IsSpace(name[0]) && !IsSpace(name[|name| - 1]) && !IsDigit(name[0]);
    IndexIgnored("24", " ", name);
    NormalizeExampleName();
  }

  // ---------------------------------------------------------------------------
  // Loading the validation sheet

  /** One validation sample: the material and its human labels. */
  datatype Sample = Sample(code: string, name: string, model: string, material: string, brand: string,
                           supplier: string, humanMain: string, humanSub: string)

  datatype LoadError = MissingColumns(columns: seq<string>)

  /** The sample a row describes, every absent cell read as "". */
  function SampleOf(row: Row): Sample {
    Sample(Field(row, CODE), Field(row, NAME), Field(row, DRAWING_MODEL), Field(row, DESCRIPTION),
           Field(row, CATEGORY_BRAND), Field(row, BRAND_OR_SUPPLIER), Field(row, HUMAN_MAIN), Field(row, HUMAN_SUB))
  }

  /** A row is kept only when it carries both human labels. */
  function Kept(row: Row): Option<Sample> {
    var s := SampleOf(row);
    if s.humanMain != [] && s.humanSub != [] then Some(s) else None
  }

  /** `load_validation_data` on a sheet: the missing columns, or the labelled rows in order. */
  function Loaded(sheet: Sheet): Result<seq<Sample>, LoadError> {
    var missing := Missing(REQUIRED, sheet.columns);
    if missing != [] then Err(MissingColumns(missing)) else Ok(FilterMap(sheet.rows, Kept))
  }

  /** The row loop of `load_validation_data`. */
  method CollectSamples(rows: seq<Row>) returns (samples: seq<Sample>)
    ensures samples == FilterMap(rows, Kept)
  {
    samples := [];
    for i := 0 to |rows|
      invariant samples == FilterMap(rows[..i], Kept)
    {
      FilterMapSnoc(rows[..i], rows[i], Kept);
      assert rows[..i + 1] == rows[..i] + [rows[i]];
      var s := SampleOf(rows[i]);
      if s.humanMain != [] && s.humanSub != [] {
        samples := samples + [s];
      }
    }
    assert rows[..|rows|] == rows;
  }

  /**
   * Loading fails exactly when a required column is absent; otherwise every
   * sample carries both human labels, every labelled row gives its sample,
   * and every sample comes from a row.
   */
  lemma LoadedShape(sheet: Sheet)
    ensures Loaded(sheet).Err? <==> exists c :: c in REQUIRED && c !in sheet.columns
    ensures Loaded(sheet).Err? ==> forall c :: c in Loaded(sheet).error.columns <==> c in REQUIRED && c !in sheet.columns
    ensures Loaded(sheet).Ok? ==> |Loaded(sheet).value| <= |sheet.rows|
    ensures Loaded(sheet).Ok? ==> forall s :: s in Loaded(sheet).value ==> s.humanMain != [] && s.humanSub != []
    ensures Loaded(sheet).Ok? ==>
              forall i :: 0 <= i < |sheet.rows| && Field(sheet.rows[i], HUMAN_MAIN) != [] && Field(sheet.rows[i], HUMAN_SUB) != []
                ==> SampleOf(sheet.rows[i]) in Loaded(sheet).value
    ensures Loaded(sheet).Ok? ==> forall s :: s in Loaded(sheet).value ==> exists i :: 0 <= i < |sheet.rows| && SampleOf(sheet.rows[i]) == s
  {
    var missing := Missing(REQUIRED, sheet.columns);
    if missing != [] {
      assert missing[0] in REQUIRED && missing[0] !in sheet.columns;
    } else {
      FilterMapExact(sheet.rows, Kept);
    }
  }

  /** The validator: it keeps the samples it last loaded. */
  class Validator {
    var samples: seq<Sample>

    constructor ()
      ensures samples == []
    {
      samples := [];
    }

    /** `load_validation_data`: on success the samples are replaced; on an error nothing changes. */
    method Load(sheet: Sheet) returns (r: Result<seq<Sample>, LoadError>)
      modifies this`samples
      ensures r == Loaded(sheet)
      ensures r.Ok? ==> samples == r.value
      ensures r.Err? ==> samples == old(samples)
    {
      var missing := Missing(REQUIRED, sheet.columns);
      if missing != [] {
        return Err(MissingColumns(missing));
      }
      var kept := CollectSamples(sheet.rows);
      samples := kept;
      r := Ok(kept);
    }
  }

  // ---------------------------------------------------------------------------
  // Checking one sample

  /** ✓ or ✗. */
  datatype Mark = Tick | Cross

  function MarkOf(b: bool): Mark {
    if b then Tick else Cross
  }

  datatype Status = Success | Failed

  /** One comparison record; `source` is absent from the records of failed samples. */
  datatype Check = Check(code: string, name: string, model: string, brand: string,
                         humanMain: string, humanSub: string, aiMain: string, aiSub: string,
                         source: Option<string>, mainMark: Mark, subMark: Mark, fullMark: Mark,
                         status: Status, error: string)

  /** What the classifier is shown of a sample. */
  function ClassifyInfo(s: Sample): Row {
    [(NAME, s.name), (DRAWING_MODEL, s.model), (MATERIAL, s.material), (CATEGORY_BRAND, s.brand), (SUPPLIER, s.supplier)]
  }

  /**
   * A record is faithful when its marks mean what they say: the full mark is
   * the conjunction of the other two, a successful record ticks a level
   * exactly when the labels agree after normalisation, and a failed record
   * ticks nothing.
   */
  predicate Faithful(c: Check) {
    (c.fullMark == Tick <==> c.mainMark == Tick && c.subMark == Tick)
    && (c.status == Success ==>
          (c.mainMark == Tick <==> NormalizeCategory(c.aiMain) == NormalizeCategory(c.humanMain))
          && (c.subMark == Tick <==> NormalizeCategory(c.aiSub) == NormalizeCategory(c.humanSub)))
    && (c.status == Failed ==> c.mainMark == Cross && c.subMark == Cross)
  }

  /** `validate_single`: classify the sample and compare the answer with its human labels. */
  function ValidateSingle(s: Sample, classify: Row -> Answer): (r: Check)
    ensures Faithful(r)
    ensures r.status == Success <==> classify(ClassifyInfo(s)).Ok?
    ensures r.humanMain == s.humanMain && r.humanSub == s.humanSub
    ensures r.code == s.code && r.name == s.name && r.model == s.model && r.brand == s.brand
    ensures r.status == Success ==> r.source.Some? && r.error == []
    ensures r.status == Failed ==>
              r.aiMain == [] && r.aiSub == [] && r.source == None && r.error == classify(ClassifyInfo(s)).error
  {
    match classify(ClassifyInfo(s))
    case Ok(a) =>
      var aiMain := GetOr(a, "main_category", "");
      var aiSub := GetOr(a, "sub_category", "");
      var mainMatch := NormalizeCategory(aiMain) == NormalizeCategory(s.humanMain);
      var subMatch := NormalizeCategory(aiSub) == NormalizeCategory(s.humanSub);
      Check(s.code, s.name, s.model, s.brand, s.humanMain, s.humanSub, aiMain, aiSub,
            Some(GetOr(a, "classification_source", "")), MarkOf(mainMatch), MarkOf(subMatch),
            MarkOf(mainMatch && subMatch), Success, "")
    case Err(e) =>
      Check(s.code, s.name, s.model, s.brand, s.humanMain, s.humanSub, "", "", None,
            Cross, Cross, Cross, Failed, e)
  }

  /**
   * An answer that names the human main category without its index number
   * gets a tick at the main level.
   */
  lemma IndexedLabelMatches(s: Sample, classify: Row -> Answer, digits: string, spaces: string, tail: string)
    requires digits != [] && forall i :: 0 <= i < |digits| ==> IsDigit(digits[i])
    requires spaces != [] && forall i :: 0 <= i < |spaces| ==> IsSpace(spaces[i])
    requires tail != [] && Trimmed(tail) && !IsDigit(tail[0])
    requires s.humanMain == digits + spaces + tail
    requires classify(ClassifyInfo(s)).Ok? && Get(classify(ClassifyInfo(s)).value, "main_category") == Some(tail)
    ensures ValidateSingle(s, classify).mainMark == Tick
  {
    IndexIgnored(digits, spaces, tail);
  }

  // ---------------------------------------------------------------------------
  // Metrics

  function SuccessOf(c: Check): Option<Check> {
    if c.status == Success then Some(c) else None
  }

  function FailureOf(c: Check): Option<Check> {
    if c.status == Failed then Some(c) else None
  }

  function MainTicked(c: Check): Option<Check> {
    if c.mainMark == Tick then Some(c) else None
  }

  function SubTicked(c: Check): Option<Check> {
    if c.subMark == Tick then Some(c) else None
  }

  function FullTicked(c: Check): Option<Check> {
    if c.fullMark == Tick then Some(c) else None
  }

  datatype MetricsError = NotValidated

  /** The correct counts, present only when some sample was classified. */
  datatype Correct = Correct(main: nat, sub: nat, full: nat)

  datatype Summary = Summary(total: nat, success: nat, failed: int, correct: Option<Correct>,
                             mainAccuracy: real, subAccuracy: real, fullAccuracy: real)

  /** A percentage of `n` successful samples, 0 when there are none. */
  function Accuracy(correct: nat, n: nat): real {
    if n > 0 then correct as real / n as real * 100.0 else 0.0
  }

  /** `calculate_metrics`: counts over all records, correct counts over the successful ones. */
  function Metrics(results: seq<Check>): Result<Summary, MetricsError> {
    if results == [] then Err(NotValidated)
    else
      var ok := FilterMap(results, SuccessOf);
      var failed := |results| - |ok|;
      if ok == [] then Ok(Summary(|results|, 0, failed, None, 0.0, 0.0, 0.0))
      else
        var c := Correct(|FilterMap(ok, MainTicked)|, |FilterMap(ok, SubTicked)|, |FilterMap(ok, FullTicked)|);
        Ok(Summary(|results|, |ok|, failed, Some(c),
                   Accuracy(c.main, |ok|), Accuracy(c.sub, |ok|), Accuracy(c.full, |ok|)))
  }

  /** A count of at most `n` gives a percentage between 0 and 100. */
  lemma AccuracyBounds(correct: nat, n: nat)
    requires correct <= n
    ensures 0.0 <= Accuracy(correct, n) <= 100.0
    ensures Accuracy(correct, n) == 100.0 <==> n > 0 && correct == n
  {
    if n > 0 {
      var q := correct as real / n as real;
      assert q * n as real == correct as real;
      assert q <= 1.0 by {
        if q > 1.0 {
          assert q * n as real > n as real;
        }
      }
    }
  }

  /**
   * Metrics need at least one record; success and failure counts are the
   * successful and failed records and add up to the total; with no success
   * there are no correct counts and every accuracy is 0.
   */
  lemma MetricsTotals(results: seq<Check>)
    ensures Metrics(results).Err? <==> results == []
    ensures Metrics(results).Ok? ==>
              var m := Metrics(results).value;
              m.total == |results| && m.success == |FilterMap(results, SuccessOf)|
              && m.failed == |FilterMap(results, FailureOf)| && m.success + m.failed == m.total
    ensures Metrics(results).Ok? && Metrics(results).value.success == 0 ==>
              var m := Metrics(results).value;
              m.correct == None && m.mainAccuracy == 0.0 && m.subAccuracy == 0.0 && m.fullAccuracy == 0.0
  {
    FilterMapPartition(results, SuccessOf, FailureOf);
  }

  /**
   * Correct counts are taken over successes only, so none exceeds the
   * success count, and every accuracy is a percentage.
   */
  lemma MetricsBounded(results: seq<Check>)
    requires Metrics(results).Ok? && Metrics(results).value.correct.Some?
    ensures var m := Metrics(results).value;
            m.correct.value.main <= m.success && m.correct.value.sub <= m.success && m.correct.value.full <= m.success
            && 0.0 <= m.mainAccuracy <= 100.0 && 0.0 <= m.subAccuracy <= 100.0 && 0.0 <= m.fullAccuracy <= 100.0
  {
    var ok := FilterMap(results, SuccessOf);
    FilterMapExact(ok, MainTicked);
    FilterMapExact(ok, SubTicked);
    FilterMapExact(ok, FullTicked);
    var m := Metrics(results).value;
    AccuracyBounds(m.correct.value.main, |ok|);
    AccuracyBounds(m.correct.value.sub, |ok|);
    AccuracyBounds(m.correct.value.full, |ok|);
  }

  /** For faithful records, full matches are never more than main or sub matches. */
  lemma MetricsOfFaithful(results: seq<Check>)
    requires forall i :: 0 <= i < |results| ==> Faithful(results[i])
    requires Metrics(results).Ok? && Metrics(results).value.correct.Some?
    ensures var c := Metrics(results).value.correct.value;
            c.full <= c.main && c.full <= c.sub
  {
    var ok := FilterMap(results, SuccessOf);
    FilterMapExact(results, SuccessOf);
    forall i | 0 <= i < |ok|
      ensures Faithful(ok[i])
    {
      assert ok[i] in ok;
      var j :| 0 <= j < |results| && SuccessOf(results[j]) == Some(ok[i]);
    }
    FilterMapFewer(ok, FullTicked, MainTicked);
    FilterMapFewer(ok, FullTicked, SubTicked);
  }

  // ---------------------------------------------------------------------------
  // Confusion tally

  datatype Level = MainLevel | SubLevel

  /** The mark of a record at one level. */
  function MarkAt(c: Check, level: Level): Mark {
    if level == MainLevel then c.mainMark else c.subMark
  }

  /** The records with a ✗ at `level`. */
  function MismatchAt(level: Level): Check -> Option<Check> {
    (c: Check) => if MarkAt(c, level) == Cross then Some(c) else None
  }

  /** The (human, AI) tail pair of a record at `level`. */
  function PairAt(level: Level): Check -> Option<(string, string)> {
    (c: Check) => if level == MainLevel then Some((c.humanMain, c.aiMain)) else Some((c.humanSub, c.aiSub))
  }

  /** The records that enter the tally: the successes, and only their mismatches when `onlyErrors` is set. */
  function Compared(results: seq<Check>, level: Level, onlyErrors: bool): seq<Check> {
    var ok := FilterMap(results, SuccessOf);
    if onlyErrors then FilterMap(ok, MismatchAt(level)) else ok
  }

  /** The loop that lists one (human, AI) pair per compared record. */
  method ConfusionData(compared: seq<Check>, level: Level) returns (data: seq<(string, string)>)
    ensures data == FilterMap(compared, PairAt(level))
  {
    data := [];
    for i := 0 to |compared|
      invariant data == FilterMap(compared[..i], PairAt(level))
    {
      FilterMapSnoc(compared[..i], compared[i], PairAt(level));
      assert compared[..i + 1] == compared[..i] + [compared[i]];
      if level == MainLevel {
        data := data + [(compared[i].humanMain, compared[i].aiMain)];
      } else {
        data := data + [(compared[i].humanSub, compared[i].aiSub)];
      }
    }
    assert compared[..|compared|] == compared;
  }

  /** Group-and-count: each distinct pair once, in order of first appearance, with its number of occurrences. */
  function Tally<P(==)>(ps: seq<P>): Pairs<P, nat>
    decreases |ps|
  {
    if ps == [] then []
    else
      var n := |ps| - 1;
      var t := Tally(ps[..n]);
      Put(t, ps[n], GetOr(t, ps[n], 0) + 1)
  }

  /** The sum of the counts of a tally. */
  function SumValues<P>(m: Pairs<P, nat>): nat {
    if m == [] then 0 else m[0].1 + SumValues(m[1..])
  }

  /** The confusion counts of `_build_confusion_matrix`, absent pairs counting 0. */
  function Confusion(results: seq<Check>, level: Level, onlyErrors: bool): Pairs<(string, string), nat> {
    Tally(FilterMap(Compared(results, level, onlyErrors), PairAt(level)))
  }

  /** Assigning `v` to `k` changes the sum by `v` minus the count `k` had. */
  lemma {:induction false} SumPut<P>(m: Pairs<P, nat>, k: P, v: nat)
    ensures SumValues(Put(m, k, v)) + GetOr(m, k, 0) == SumValues(m) + v
    decreases |m|
  {
    if m != [] && m[0].0 != k {
      SumPut(m[1..], k, v);
      assert Put(m, k, v)[1..] == Put(m[1..], k, v);
    }
  }

  /** Each pair is counted as often as it occurs, and the counts add up to the number of pairs. */
  lemma {:induction false} TallyCounts<P>(ps: seq<P>)
    ensures forall p :: GetOr(Tally(ps), p, 0) == multiset(ps)[p]
    ensures SumValues(Tally(ps)) == |ps|
    decreases |ps|
  {
    if ps != [] {
      var n := |ps| - 1;
      var t := Tally(ps[..n]);
      TallyCounts(ps[..n]);
      assert ps == ps[..n] + [ps[n]];
      forall p
        ensures GetOr(Tally(ps), p, 0) == multiset(ps)[p]
      {
        GetPut(t, ps[n], GetOr(t, ps[n], 0) + 1, p);
      }
      SumPut(t, ps[n], GetOr(t, ps[n], 0) + 1);
    }
  }

  /**
   * The confusion counts sum to the number of compared records: every
   * successful record, or every successful mismatch when only errors are
   * tallied.
   */
  lemma ConfusionTotal(results: seq<Check>, level: Level, onlyErrors: bool)
    ensures SumValues(Confusion(results, level, onlyErrors)) == |Compared(results, level, onlyErrors)|
    ensures !onlyErrors ==> SumValues(Confusion(results, level, onlyErrors)) == |FilterMap(results, SuccessOf)|
  {
    var compared := Compared(results, level, onlyErrors);
    var none: Check -> Option<Check> := (c: Check) => None;
    FilterMapPartition(compared, PairAt(level), none);
    FilterMapNone(compared, none);
    TallyCounts(FilterMap(compared, PairAt(level)));
  }

  /** For faithful records, the error tally only counts pairs whose labels differ after normalisation. */
  lemma ErrorsAreMismatches(results: seq<Check>, level: Level)
    requires forall i :: 0 <= i < |results| ==> Faithful(results[i])
    ensures forall p :: GetOr(Confusion(results, level, true), p, 0) > 0 ==> NormalizeCategory(p.0) != NormalizeCategory(p.1)
  {
    var ok := FilterMap(results, SuccessOf);
    var compared := FilterMap(ok, MismatchAt(level));
    var data := FilterMap(compared, PairAt(level));
    TallyCounts(data);
    FilterMapExact(results, SuccessOf);
    FilterMapExact(ok, MismatchAt(level));
    FilterMapExact(compared, PairAt(level));
    forall p | GetOr(Confusion(results, level, true), p, 0) > 0
      ensures NormalizeCategory(p.0) != NormalizeCategory(p.1)
    {
      assert p in data;
      var k :| 0 <= k < |compared| && PairAt(level)(compared[k]) == Some(p);
      assert compared[k] in compared;
      var j :| 0 <= j < |ok| && MismatchAt(level)(ok[j]) == Some(compared[k]);
      assert ok[j] in ok;
      var i :| 0 <= i < |results| && SuccessOf(results[i]) == Some(ok[j]);
      assert Faithful(results[i]);
    }
  }
}
