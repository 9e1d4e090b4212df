/**
 * What `classify_material` returns or raises, shared by the classifiers
 * that try the local keyword matcher before the LLM.
 */
module Results {
  import opened Wrappers
  import opened Assoc
  import opened Json
  import opened Taxonomy
  import opened Extraction
  import opened Validation
  import opened Retry

  /** Why `classify_material` raised. */
  datatype Failure =
    | ApiFailed(api: ApiError)    // `_call_deepseek_api` raised
    | Rejected(verdict: Verdict)  // `validate_classification_result` raised

  const LOCAL_SOURCE := "keyword_matcher"

  /** The result dict built from a local keyword match. */
  function LocalResult(main: string, sub: string): Pairs<string, Json> {
    [(MAIN_KEY, JString(main)), (SUB_KEY, JString(sub)), (SOURCE_KEY, JString(LOCAL_SOURCE))]
  }

  /** A local result holds the two categories and the `keyword_matcher` tag. */
  lemma LocalResultFields(main: string, sub: string)
    ensures var r := LocalResult(main, sub);
      Get(r, MAIN_KEY) == Some(JString(main)) && Get(r, SUB_KEY) == Some(JString(sub)) &&
      Get(r, SOURCE_KEY) == Some(JString(LOCAL_SOURCE))
  {
    var r := LocalResult(main, sub);
    assert SOURCE_KEY != MAIN_KEY && SOURCE_KEY != SUB_KEY;
    assert Get(r, SOURCE_KEY) == Get(r[1..], SOURCE_KEY) == Get(r[1..][1..], SOURCE_KEY);
    assert r[1..][1..] == [(SOURCE_KEY, JString(LOCAL_SOURCE))];
  }

  /** Validation's refusal as the failure `classify_material` propagates. */
  function Validated(c: Result<Pairs<string, Json>, Verdict>): Result<Pairs<string, Json>, Failure> {
    match c
    case Ok(r) => Ok(r)
    case Err(v) => Err(Rejected(v))
  }

  /** What `classify_material` makes of the API call's outcome: its failure, or the validated result. */
  function Answered(t: Table, api: Result<Pairs<string, Json>, ApiError>, show: Json -> string): Result<Pairs<string, Json>, Failure> {
    match api
    case Err(e) => Err(ApiFailed(e))
    case Ok(v) => Validated(Checked(t, v, show))
  }

  /**
   * An accepted API answer names a taxonomy entry in its original spelling
   * and keeps the source tag the API call put on it.
   */
  lemma AnsweredIsStandard(t: Table, api: Result<Pairs<string, Json>, ApiError>, show: Json -> string, tag: string)
    requires WellFormed(t)
    requires Answered(t, api, show).Ok?
    requires Get(api.value, SOURCE_KEY) == Some(JString(tag))
    ensures var r := Answered(t, api, show).value;
      (exists p :: p in t && Get(r, MAIN_KEY) == Some(JString(p.1.main)) && Get(r, SUB_KEY) == Some(JString(p.1.sub))) &&
      Get(r, SOURCE_KEY) == Some(JString(tag))
  {
    CheckedCanonical(t, api.value, show);
  }

  /**
   * When every successful request carries the source tag `tag`, so does a
   * successful outcome of the counted retry loop.
   */
  lemma CountedTagged(step: nat -> Result<Pairs<string, Json>, ApiError>, post: nat, m: nat, failures: nat, tag: string)
    requires forall k: nat :: step(k).Ok? ==> Get(step(k).value, SOURCE_KEY) == Some(JString(tag))
    ensures var c := Counted(step, post, 0, m, failures);
      c.result.Ok? ==> Get(c.result.value, SOURCE_KEY) == Some(JString(tag))
  {
    if m > 0 {
      CountedPosts(step, post, 0, m, failures);
    }
  }

  /** The same for the LangChain retry loop, whose counter resets on a late failure. */
  lemma LateCountedTagged(step: nat -> Result<Pairs<string, Json>, ApiError>, post: nat, m: nat, failures: nat, tag: string)
    requires forall k: nat :: step(k).Ok? ==> Get(step(k).value, SOURCE_KEY) == Some(JString(tag))
    ensures var c := LateCounted(step, post, 0, m, failures);
      c.result.Ok? ==> Get(c.result.value, SOURCE_KEY) == Some(JString(tag))
  {
    if m > 0 {
      LateCountedPosts(step, post, 0, m, failures);
    }
  }

  /**
   * Whatever local matcher produced it, a pair that some taxonomy entry holds
   * is returned as a standard classification tagged "keyword_matcher".
   */
  lemma LocalPickIsStandard(t: Table, pair: (string, string), show: Json -> string)
    requires WellFormed(t)
    requires exists p :: p in t && pair == (p.1.main, p.1.sub)
    ensures var r := Validated(Checked(t, LocalResult(pair.0, pair.1), show));
      r.Ok? &&
      (exists p :: p in t && Get(r.value, MAIN_KEY) == Some(JString(p.1.main)) && Get(r.value, SUB_KEY) == Some(JString(p.1.sub))) &&
      Get(r.value, SOURCE_KEY) == Some(JString(LOCAL_SOURCE))
  {
    var p :| p in t && pair == (p.1.main, p.1.sub);
    LocalMatchValidates(t, p, show);
    LocalResultFields(p.1.main, p.1.sub);
  }

  /**
   * A pair taken from a taxonomy entry validates, and validation leaves the
   * local result exactly as it was built.
   */
  lemma LocalMatchValidates(t: Table, p: (Key, Entry), show: Json -> string)
    requires WellFormed(t) && p in t
    ensures Checked(t, LocalResult(p.1.main, p.1.sub), show) == Ok(LocalResult(p.1.main, p.1.sub))
  {
    var r := LocalResult(p.1.main, p.1.sub);
    LocalResultFields(p.1.main, p.1.sub);
    AnySpellingAccepted(t, r, show, p, p.1.main, p.1.sub);
    GetPair(t, p);
    PutSame(r, MAIN_KEY, JString(p.1.main));
    PutSame(r, SUB_KEY, JString(p.1.sub));
  }
}
