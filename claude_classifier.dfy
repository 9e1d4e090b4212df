/**
 * The direct-HTTP classifier: its taxonomy is the rules block of the prompt
 * template, it has no local matcher, it fills the whole template with the
 * material's description once and posts it up to `Config.MAX_RETRIES`
 * times with no failure counter, and it keeps the model's object as it is
 * (no source tag). Validation and the batch loop are the shared ones.
 *
 * The endpoint is the oracle `network`, indexed by how many requests the
 * instance has posted before; the sleeps are recorded in the ghost trace
 * `pauses`.
 */
module ClaudeClassifier {
  import opened Wrappers
  import opened Text
  import opened Assoc
  import opened Json
  import opened Taxonomy
  import opened Material
  import opened Extraction
  import opened Validation
  import opened Retry
  import opened Results
  import opened Batch
  import opened Prompt
  import opened RulesBlock
  import opened Lists

  /** Why constructing the classifier raises. */
  datatype InitError =
    | RulesUnreadable  // "无法找到分类规则部分" from the loader
    | NoApiKey         // "DeepSeek API密钥未配置"

  class Classifier {
    /** `classification_mapping`, read from the rules block of the template. */
    const table: Table
    /** `Config.MAX_RETRIES`. */
    const maxRetries: nat
    /** `Config.PROMPT_TEMPLATE.format(material_info=...)`. */
    const render: string -> string
    /** The reply to the `k`-th request posted with the given prompt. */
    const network: (nat, string) -> Reply
    /** `json.loads`. */
    const parse: string -> Option<Json>
    const show: Json -> string

    /** Requests posted so far. */
    var posts: nat
    /** Every `time.sleep` so far. */
    ghost var pauses: seq<Pause>
    /** What `classify_material` does from a given request count: `Classify`, fixed at construction. */
    ghost var classify: (nat, Row) -> Step<nat>

    constructor (table: Table, maxRetries: nat, render: string -> string,
                 network: (nat, string) -> Reply, parse: string -> Option<Json>, show: Json -> string)
      ensures this.table == table && this.maxRetries == maxRetries && this.render == render
      ensures this.network == network && this.parse == parse && this.show == show
      ensures posts == 0 && pauses == []
      ensures Valid()
    {
      this.table := table;
      this.maxRetries := maxRetries;
      this.render := render;
      this.network := network;
      this.parse := parse;
      this.show := show;
      posts := 0;
      pauses := [];
      new;
      classify := (st: nat, material: Row) => Classify(st, material);
    }

    // -------------------------------------------------------------------------
    // Specification

    /** The instance as constructed: `classify` is `Classify`. */
    ghost predicate Valid()
      reads this`classify
    {
      forall st: nat, material: Row {:trigger Classify(st, material)} ::
        classify(st, material) == Classify(st, material)
    }

    /** The outcome of the `k`-th request posted with `prompt`. */
    function Attempts(prompt: string): nat -> Result<Pairs<string, Json>, ApiError> {
      (k: nat) => FenceAttempt(network(k, prompt), parse)
    }

    /** The prompt for a material: the template filled in with its description. */
    function PromptOf(material: Row): string {
      render(Description(Formatted(material)))
    }

    /** `classify_material(material_data)` on an instance that has posted `st` requests. */
    function Classify(st: nat, material: Row): Step<nat> {
      var c := Plain(Attempts(PromptOf(material)), st, 0, maxRetries);
      Step(Answered(table, c.result, show), c.posts, c.pauses)
    }

    // -------------------------------------------------------------------------
    // Methods

    /** `_call_deepseek_api(prompt)`. */
    method CallApi(prompt: string) returns (r: Result<Pairs<string, Json>, ApiError>)
      modifies this`posts, this`pauses
      ensures var c := Plain(Attempts(prompt), old(posts), 0, maxRetries);
        r == c.result && posts == c.posts && pauses == old(pauses) + c.pauses
    {
      ghost var step := Attempts(prompt);
      ghost var start := Plain(step, posts, 0, maxRetries);
      ghost var before := pauses;
      ghost var slept: seq<Pause> := [];
      var i: nat := 0;
      while i < maxRetries
        invariant i <= maxRetries
        invariant pauses == before + slept
        invariant start == Delayed(slept, Plain(step, posts, i, maxRetries))
        decreases maxRetries - i
      {
        var reply := network(posts, prompt);
        var outcome := FenceAttempt(reply, parse);
        assert outcome == step(posts);
        ghost var post := posts;
        posts := posts + 1;
        if outcome.Ok? || i == maxRetries - 1 {
          PlainStops(step, post, i, maxRetries);
          return outcome;
        }
        PlainBacksOff(step, post, i, maxRetries);
        DelayedTwice(slept, [Backoff(Pow2(i))], Plain(step, posts, i + 1, maxRetries));
        pauses := pauses + [Backoff(Pow2(i))];
        slept := slept + [Backoff(Pow2(i))];
        i := i + 1;
      }
      assert pauses == before + slept + [];
      return Err(NoAttempts);
    }

    /** `classify_material(material_data)`: the validated classification, or why it raised. */
    method ClassifyMaterial(material: Row) returns (r: Result<Pairs<string, Json>, Failure>)
      requires Valid()
      modifies this`posts, this`pauses
      ensures var s := classify(old(posts), material);
        r == s.result && posts == s.state && pauses == old(pauses) + s.pauses
    {
      assert classify(posts, material) == Classify(posts, material);
      var info := Description(Formatted(material));
      var prompt := render(info);
      var api := CallApi(prompt);
      if api.Err? {
        return Err(ApiFailed(api.error));
      }
      var result := new Classification(api.value);
      var valid := Validate(table, result, show);
      if valid.Err? {
        return Err(Rejected(valid.error));
      }
      return Ok(result.fields);
    }

    /** `classify_batch(materials_list)`. */
    method ClassifyBatch(materials: seq<Row>) returns (results: seq<Record>)
      requires Valid()
      modifies this`posts, this`pauses
      ensures var o := Run(classify, materials, old(posts));
        results == o.records && posts == o.state && pauses == old(pauses) + o.pauses
      ensures |results| == |materials| && forall i :: 0 <= i < |materials| ==> results[i].original == materials[i]
      ensures RateLimits(pauses) == RateLimits(old(pauses)) + if materials == [] then 0 else |materials| - 1
    {
      ghost var total := Run(classify, materials, posts);
      ghost var before := pauses;
      ghost var slept: seq<Pause> := [];
      results := [];
      var i := 0;
      assert materials[0..] == materials;
      while i < |materials|
        invariant i <= |materials|
        invariant pauses == before + slept
        invariant After(classify, materials, total, i, results, posts, slept)
      {
        ghost var s := classify(posts, materials[i]);
        AfterOneMore(classify, materials, total, i, results, posts, slept);
        ghost var pausesBefore := pauses;
        var r := ClassifyMaterial(materials[i]);
        assert r == s.result && posts == s.state && pauses == pausesBefore + s.pauses;
        results := results + [RecordOf(materials[i], r)];
        PausesAppend(before, slept, s.pauses);
        slept := slept + s.pauses;
        if i < |materials| - 1 {
          pauses := pauses + [RateLimit];
          PausesAppend(before, slept, [RateLimit]);
          slept := slept + [RateLimit];
        }
        i := i + 1;
      }
      assert materials[i..] == [];
      NoRateLimitInside();
      RunShape(classify, materials, old(posts));
      RateLimitsAppend(before, total.pauses);
    }

    // -------------------------------------------------------------------------
    // Properties

    /**
     * Every failure is retried alike: a classification posts between one and
     * `maxRetries` requests, all with the same prompt, gives up on the model
     * only after all `maxRetries` of them, and sleeps 2^i seconds after the
     * i-th failed request but the last.
     */
    lemma RetriesAlike(st: nat, material: Row)
      requires maxRetries > 0
      ensures var s := Classify(st, material);
        st + 1 <= s.state <= st + maxRetries &&
        (s.result.Err? && s.result.error.ApiFailed? ==> s.state == st + maxRetries) &&
        |s.pauses| == s.state - st - 1 &&
        forall i :: 0 <= i < |s.pauses| ==> s.pauses[i] == Backoff(Pow2(i))
    {
      PlainExhausts(Attempts(PromptOf(material)), st, 0, maxRetries);
    }

    /**
     * An accepted classification names a taxonomy entry in its original
     * spelling and is otherwise the model's own object: the same keys, every
     * other value as the model sent it, and no source tag added.
     */
    lemma ClassifiedIsStandard(st: nat, material: Row)
      requires WellFormed(table)
      requires Classify(st, material).result.Ok?
      ensures var c := Plain(Attempts(PromptOf(material)), st, 0, maxRetries);
        var r := Classify(st, material).result.value;
        c.result.Ok? &&
        (exists p :: p in table &&
          Get(r, MAIN_KEY) == Some(JString(p.1.main)) && Get(r, SUB_KEY) == Some(JString(p.1.sub))) &&
        Keys(r) == Keys(c.result.value) &&
        forall k :: k != MAIN_KEY && k != SUB_KEY ==> Get(r, k) == Get(c.result.value, k)
    {
      var c := Plain(Attempts(PromptOf(material)), st, 0, maxRetries);
      CheckedCanonical(table, c.result.value, show);
    }

    /** Classifying any material, in any state, sleeps only to back off, never for the rate limit. */
    lemma NoRateLimitInside()
      requires Valid()
      ensures forall st: nat, material: Row :: RateLimits(classify(st, material).pauses) == 0
    {
      forall st: nat, material: Row
        ensures RateLimits(classify(st, material).pauses) == 0
      {
        assert classify(st, material) == Classify(st, material);
        if maxRetries > 0 {
          var c := Plain(Attempts(PromptOf(material)), st, 0, maxRetries);
          PlainExhausts(Attempts(PromptOf(material)), st, 0, maxRetries);
          BackoffsOnly(c.pauses);
        }
      }
    }
  }

  /**
   * The constructor: the taxonomy is loaded from the template's rules block
   * first, then the API key is checked.
   */
  method Open(template: string, apiKey: string, maxRetries: nat, render: string -> string,
              network: (nat, string) -> Reply, parse: string -> Option<Json>, show: Json -> string)
    returns (r: Result<Classifier, InitError>)
    ensures Block(SplitLines(template)).None? ==> r == Err(RulesUnreadable)
    ensures Block(SplitLines(template)).Some? && apiKey == [] ==> r == Err(NoApiKey)
    ensures Block(SplitLines(template)).Some? && apiKey != [] ==> r.Ok?
    ensures r.Ok? ==>
      var (s, e) := Block(SplitLines(template)).value;
      fresh(r.value) && r.value.Valid() && r.value.table == RulesTable(SplitLines(template)[s..e]) &&
      r.value.posts == 0 && r.value.pauses == []
  {
    var loaded := LoadRules(template);
    if loaded.Err? {
      return Err(RulesUnreadable);
    }
    if apiKey == [] {
      return Err(NoApiKey);
    }
    var c := new Classifier(loaded.value, maxRetries, render, network, parse, show);
    return Ok(c);
  }

  // ---------------------------------------------------------------------------
  // Reading the materials file

  /** `key in row and row[key].strip()`. */
  predicate Present(row: Row, key: string) {
    Get(row, key).Some? && Strip(Get(row, key).value) != []
  }

  /** `all(key in row and row[key].strip() for key in ["型号", "品牌", "供应商"])`. */
  predicate Complete(row: Row) {
    Present(row, MODEL) && Present(row, BRAND) && Present(row, SUPPLIER)
  }

  /** A row is kept as it is when complete, and skipped otherwise. */
  function KeptRow(row: Row): Option<Row> {
    if Complete(row) then Some(row) else None
  }

  /** The reader's loop over the file's rows. */
  method ReadMaterials(rows: seq<Row>) returns (materials: seq<Row>)
    ensures materials == FilterMap(rows, KeptRow)
  {
    materials := [];
    var i := 0;
    while i < |rows|
      invariant i <= |rows|
      invariant materials == FilterMap(rows[..i], KeptRow)
    {
      assert rows[..i + 1] == rows[..i] + [rows[i]];
      FilterMapSnoc(rows[..i], rows[i], KeptRow);
      if Present(rows[i], MODEL) && Present(rows[i], BRAND) && Present(rows[i], SUPPLIER) {
        materials := materials + [rows[i]];
      }
      i := i + 1;
    }
    assert rows[..i] == rows;
  }

  /**
   * The reader keeps exactly the rows with a non-blank 型号, 品牌 and 供应商:
   * each complete row is kept, each kept row is a complete input row, and a
   * file with no complete row yields nothing.
   */
  lemma ReadKeepsComplete(rows: seq<Row>)
    ensures forall i :: 0 <= i < |rows| && Complete(rows[i]) ==> rows[i] in FilterMap(rows, KeptRow)
    ensures forall m :: m in FilterMap(rows, KeptRow) ==> m in rows && Complete(m)
    ensures (forall i :: 0 <= i < |rows| ==> !Complete(rows[i])) ==> FilterMap(rows, KeptRow) == []
  {
    FilterMapExact(rows, KeptRow);
    forall m | m in FilterMap(rows, KeptRow)
      ensures m in rows && Complete(m)
    {
      var i :| 0 <= i < |rows| && KeptRow(rows[i]) == Some(m);
    }
    if forall i :: 0 <= i < |rows| ==> !Complete(rows[i]) {
      FilterMapNone(rows, KeptRow);
    }
  }
}
