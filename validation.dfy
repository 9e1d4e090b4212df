/**
 * `validate_classification_result`, the same in every classifier: both
 * categories must be present and truthy, their normalised pair must be a
 * taxonomy key, and then the result's two categories are overwritten in
 * place with the taxonomy's original spelling.
 */
module Validation {
  import opened Wrappers
  import opened Text
  import opened Assoc
  import opened Json
  import opened Taxonomy
  import opened Extraction

  /** Why a result is refused. */
  datatype Verdict =
    | Incomplete   // "分类结果不完整"
    | NotStandard  // "分类结果不符合标准"

  /** The result dict, which validation rewrites in place. */
  class Classification {
    var fields: Pairs<string, Json>

    constructor (fields: Pairs<string, Json>)
      ensures this.fields == fields
    {
      this.fields := fields;
    }
  }

  /** The lookup key of a result's two category values, through `str`. */
  function ResultKey(main: Json, sub: Json, show: Json -> string): Key {
    KeyOf(Str(main, show), Str(sub, show))
  }

  /** A present, truthy value under `k`. */
  predicate Filled(fields: Pairs<string, Json>, k: string) {
    Get(fields, k).Some? && Truthy(Get(fields, k).value)
  }

  /** The validated result, or why validation raises. */
  function Checked(t: Table, fields: Pairs<string, Json>, show: Json -> string): Result<Pairs<string, Json>, Verdict>
  {
    if !Filled(fields, MAIN_KEY) || !Filled(fields, SUB_KEY) then Err(Incomplete)
    else
      match Get(t, ResultKey(Get(fields, MAIN_KEY).value, Get(fields, SUB_KEY).value, show))
      case None => Err(NotStandard)
      case Some(e) => Ok(Put(Put(fields, MAIN_KEY, JString(e.main)), SUB_KEY, JString(e.sub)))
  }

  /** `validate_classification_result(result)`: True, with `result` rewritten, or the refusal. */
  method Validate(t: Table, result: Classification, show: Json -> string) returns (r: Result<bool, Verdict>)
    modifies result
    ensures Checked(t, old(result.fields), show).Ok? ==>
      r == Ok(true) && result.fields == Checked(t, old(result.fields), show).value
    ensures Checked(t, old(result.fields), show).Err? ==>
      r == Err(Checked(t, old(result.fields), show).error) && result.fields == old(result.fields)
  {
    var main := Get(result.fields, MAIN_KEY);
    var sub := Get(result.fields, SUB_KEY);
    if main.None? || !Truthy(main.value) || sub.None? || !Truthy(sub.value) {
      return Err(Incomplete);
    }
    var normalizedMain := KeyNorm(Str(main.value, show));
    var normalizedSub := KeyNorm(Str(sub.value, show));
    var stored := Get(t, (normalizedMain, normalizedSub));
    if stored.None? {
      return Err(NotStandard);
    }
    result.fields := Put(result.fields, MAIN_KEY, JString(stored.value.main));
    result.fields := Put(result.fields, SUB_KEY, JString(stored.value.sub));
    return Ok(true);
  }

  // ---------------------------------------------------------------------------
  // Properties

  /**
   * Refusals: an incomplete result is refused as such, and a complete one
   * exactly when its normalised pair is not a taxonomy key.
   */
  lemma CheckedRefuses(t: Table, fields: Pairs<string, Json>, show: Json -> string)
    ensures Checked(t, fields, show) == Err(Incomplete) <==>
      !Filled(fields, MAIN_KEY) || !Filled(fields, SUB_KEY)
    ensures Checked(t, fields, show) == Err(NotStandard) <==>
      Filled(fields, MAIN_KEY) && Filled(fields, SUB_KEY) &&
      ResultKey(Get(fields, MAIN_KEY).value, Get(fields, SUB_KEY).value, show) !in Keys(t)
  {
  }

  /**
   * An accepted result names a taxonomy entry: its categories now hold the
   * entry's original spelling, which normalises to the key the result's own
   * values normalised to; the keys and every other value are unchanged.
   */
  lemma CheckedCanonical(t: Table, fields: Pairs<string, Json>, show: Json -> string)
    requires WellFormed(t)
    requires Checked(t, fields, show).Ok?
    ensures var r := Checked(t, fields, show).value;
      exists p :: p in t &&
        p.0 == ResultKey(Get(fields, MAIN_KEY).value, Get(fields, SUB_KEY).value, show) &&
        Get(r, MAIN_KEY) == Some(JString(p.1.main)) && Get(r, SUB_KEY) == Some(JString(p.1.sub)) &&
        KeyOf(p.1.main, p.1.sub) == p.0
    ensures var r := Checked(t, fields, show).value;
      Keys(r) == Keys(fields) && forall k :: k != MAIN_KEY && k != SUB_KEY ==> Get(r, k) == Get(fields, k)
  {
    var key := ResultKey(Get(fields, MAIN_KEY).value, Get(fields, SUB_KEY).value, show);
    var e := Get(t, key).value;
    var f1 := Put(fields, MAIN_KEY, JString(e.main));
    var r := Put(f1, SUB_KEY, JString(e.sub));
    forall k ensures Get(r, k) == if k == SUB_KEY then Some(JString(e.sub))
                                  else if k == MAIN_KEY then Some(JString(e.main)) else Get(fields, k) {
      GetPut(fields, MAIN_KEY, JString(e.main), k);
      GetPut(f1, SUB_KEY, JString(e.sub), k);
    }
    GetFound(fields, MAIN_KEY);
    GetFound(fields, SUB_KEY);
    PutShape(fields, MAIN_KEY, JString(e.main));
    PutShape(f1, SUB_KEY, JString(e.sub));
    GetFound(t, key);
  }

  /** Validating a validated result accepts it again and changes nothing. */
  lemma CheckedIdempotent(t: Table, fields: Pairs<string, Json>, show: Json -> string)
    requires WellFormed(t)
    requires Checked(t, fields, show).Ok?
    ensures Checked(t, Checked(t, fields, show).value, show) == Checked(t, fields, show)
  {
    var r := Checked(t, fields, show).value;
    CheckedCanonical(t, fields, show);
    var p :| p in t &&
      p.0 == ResultKey(Get(fields, MAIN_KEY).value, Get(fields, SUB_KEY).value, show) &&
      Get(r, MAIN_KEY) == Some(JString(p.1.main)) && Get(r, SUB_KEY) == Some(JString(p.1.sub)) &&
      KeyOf(p.1.main, p.1.sub) == p.0;
    assert ResultKey(Get(r, MAIN_KEY).value, Get(r, SUB_KEY).value, show) == p.0;
    GetPair(t, p);
    PutSame(r, MAIN_KEY, JString(p.1.main));
    PutSame(r, SUB_KEY, JString(p.1.sub));
  }

  /**
   * Any spelling of a stored entry's categories that normalises to its key
   * (other spacing, tabs, upper case, surrounding blanks) is accepted and
   * rewritten to the stored original, whatever else the result holds.
   */
  lemma AnySpellingAccepted(t: Table, fields: Pairs<string, Json>, show: Json -> string, p: (Key, Entry), main: string, sub: string)
    requires WellFormed(t) && p in t
    requires Get(fields, MAIN_KEY) == Some(JString(main)) && Get(fields, SUB_KEY) == Some(JString(sub))
    requires main != [] && sub != [] && KeyOf(main, sub) == p.0
    ensures Checked(t, fields, show).Ok?
    ensures Get(Checked(t, fields, show).value, MAIN_KEY) == Some(JString(p.1.main))
    ensures Get(Checked(t, fields, show).value, SUB_KEY) == Some(JString(p.1.sub))
  {
    assert ResultKey(JString(main), JString(sub), show) == p.0;
    GetPair(t, p);
    assert Checked(t, fields, show) ==
      Ok(Put(Put(fields, MAIN_KEY, JString(p.1.main)), SUB_KEY, JString(p.1.sub)));
    var f1 := Put(fields, MAIN_KEY, JString(p.1.main));
    GetPut(fields, MAIN_KEY, JString(p.1.main), MAIN_KEY);
    GetPut(f1, SUB_KEY, JString(p.1.sub), MAIN_KEY);
    GetPut(f1, SUB_KEY, JString(p.1.sub), SUB_KEY);
  }
}
