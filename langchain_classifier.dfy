/**
 * The LangChain classifier: the same pipeline as the web one, but the local
 * matcher is the first-match one, the LLM is asked with a single filled-in
 * template (rebuilt before every attempt), and the output parser's object is
 * taken without checking its keys. Validation then refuses what lacks them.
 *
 * The model endpoint is the oracle `network`, indexed by how many requests
 * the instance has posted before; the sleeps are recorded in the ghost trace
 * `pauses`.
 */
module LangchainClassifier {
  import opened Wrappers
  import opened Assoc
  import opened Json
  import opened Taxonomy
  import opened Material
  import opened Extraction
  import opened Validation
  import opened Retry
  import opened Results
  import opened Batch
  import opened Prompt
  import opened FirstMatcher

  class Classifier {
    /** `classification_mapping`, the 4-column taxonomy loaded once. */
    const table: Table
    /** `Config.MAX_RETRIES`. */
    const maxRetries: nat
    /** `Config.BASE_PROMPT_TEMPLATE`, `Config.PROMPT_EXAMPLES` and the parser's format instructions. */
    const basePrompt: string
    const examples: string
    const formatInstructions: string
    /** The reply of `client.invoke` to the `k`-th prompt. */
    const network: (nat, string) -> Reply
    /** `output_parser.parse`. */
    const parseOutput: string -> Option<Json>
    const show: Json -> string
    /**
     * One pass of `_call_deepseek_api`'s loop body: the `k`-th request for
     * the description `info`, and what the loop makes of its reply.
     */
    const attempt: (nat, string) -> Result<Pairs<string, Json>, ApiError>

    /** Requests posted so far. */
    var posts: nat
    /** `continuous_api_failures`. */
    var failures: nat
    /** Every `time.sleep` so far. */
    ghost var pauses: seq<Pause>
    /** What `classify_material` does from a given state: `Classify`, fixed at construction. */
    ghost var classify: (ApiState, Row) -> Step<ApiState>

    constructor (table: Table, maxRetries: nat, basePrompt: string, examples: string, formatInstructions: string,
                 network: (nat, string) -> Reply, parseOutput: string -> Option<Json>, show: Json -> string)
      ensures this.table == table && this.maxRetries == maxRetries
      ensures this.basePrompt == basePrompt && this.examples == examples
      ensures this.formatInstructions == formatInstructions
      ensures this.network == network && this.parseOutput == parseOutput && this.show == show
      ensures posts == 0 && failures == 0 && pauses == []
      ensures Valid()
    {
      this.table := table;
      this.maxRetries := maxRetries;
      this.basePrompt := basePrompt;
      this.examples := examples;
      this.formatInstructions := formatInstructions;
      this.network := network;
      this.parseOutput := parseOutput;
      this.show := show;
      this.attempt := (k: nat, info: string) =>
        ParserAttempt(network(k, ParserPrompt(table, basePrompt, examples, info, formatInstructions)), parseOutput);
      posts := 0;
      failures := 0;
      pauses := [];
      new;
      classify := (st: ApiState, material: Row) => Classify(st, material);
    }

    // -------------------------------------------------------------------------
    // Specification

    /** The prompt of every request for the description `info`. */
    function PromptFor(info: string): string {
      ParserPrompt(table, basePrompt, examples, info, formatInstructions)
    }

    /** `attempt` is the loop body over the instance's client, template and parser. */
    ghost predicate Wired() {
      forall k: nat, info: string {:trigger ParserAttempt(network(k, PromptFor(info)), parseOutput)} ::
        attempt(k, info) == ParserAttempt(network(k, PromptFor(info)), parseOutput)
    }

    /** The instance as constructed: `attempt` wired, and `classify` is `Classify`. */
    ghost predicate Valid()
      reads this`classify
    {
      Wired() &&
      forall st: ApiState, material: Row {:trigger Classify(st, material)} ::
        classify(st, material) == Classify(st, material)
    }

    /** The outcome of the `k`-th request for the description `info`. */
    function Attempts(info: string): nat -> Result<Pairs<string, Json>, ApiError> {
      (k: nat) => attempt(k, info)
    }

    /**
     * `classify_material` on an instance in state `st`, for a material whose
     * description is `info` and whose local match is `local`.
     */
    function Decide(st: ApiState, info: string, local: Option<(string, string)>): Step<ApiState> {
      match local
      case Some(pair) => Step(Validated(Checked(table, LocalResult(pair.0, pair.1), show)), st, [])
      case None =>
        var c := LateCounted(Attempts(info), st.posts, 0, maxRetries, st.failures);
        Step(Answered(table, c.result, show), ApiState(c.posts, c.failures), c.pauses)
    }

    /** `classify_material(material_data)` on an instance in state `st`. */
    function Classify(st: ApiState, material: Row): Step<ApiState> {
      Decide(st, Description(Formatted(material)), FirstFields(table, Formatted(material)))
    }

    // -------------------------------------------------------------------------
    // Methods

    /** `_call_deepseek_api(material_info)`. */
    method CallApi(info: string) returns (r: Result<Pairs<string, Json>, ApiError>)
      requires Wired()
      modifies this`posts, this`failures, this`pauses
      ensures var c := LateCounted(Attempts(info), old(posts), 0, maxRetries, old(failures));
        r == c.result && posts == c.posts && failures == c.failures && pauses == old(pauses) + c.pauses
    {
      ghost var step := Attempts(info);
      ghost var start := LateCounted(step, posts, 0, maxRetries, failures);
      ghost var before := pauses;
      ghost var slept: seq<Pause> := [];
      var i: nat := 0;
      while i < maxRetries
        invariant i <= maxRetries
        invariant pauses == before + slept
        invariant start == Delayed(slept, LateCounted(step, posts, i, maxRetries, failures))
        decreases maxRetries - i
      {
        var prompt := BuildParserPrompt(table, basePrompt, examples, info, formatInstructions);
        assert prompt == PromptFor(info);
        var reply := network(posts, prompt);
        var outcome := ParserAttempt(reply, parseOutput);
        assert outcome == step(posts);
        ghost var post := posts;
        ghost var failed := failures;
        posts := posts + 1;
        if outcome.Ok? {
          failures := 0;
          LateStops(step, post, i, maxRetries, failed);
          return outcome;
        }
        // one more failure; after a late one the parser had returned, and the
        // counter had been reset before adding the source tag raised
        failures := Bumped(failures, outcome.error);
        if failures >= MAX_API_FAILURES {
          LateStops(step, post, i, maxRetries, failed);
          return outcome;
        }
        if i < maxRetries - 1 {
          LateBacksOff(step, post, i, maxRetries, failed);
          ghost var next := LateCounted(step, posts, i + 1, maxRetries, failures);
          DelayedTwice(slept, [Backoff(Pow2(i))], next);
          pauses := pauses + [Backoff(Pow2(i))];
          slept := slept + [Backoff(Pow2(i))];
        } else {
          LateStops(step, post, i, maxRetries, failed);
          return outcome;
        }
        i := i + 1;
      }
      return Err(NoAttempts);
    }

    /** `classify_material(material_data)`: the classification, or why it raised. */
    method ClassifyMaterial(material: Row) returns (r: Result<Pairs<string, Json>, Failure>)
      requires Valid()
      modifies this`posts, this`failures, this`pauses
      ensures var s := classify(ApiState(old(posts), old(failures)), material);
        r == s.result && posts == s.state.posts && failures == s.state.failures &&
        pauses == old(pauses) + s.pauses
    {
      ghost var st := ApiState(posts, failures);
      var formatted := Formatted(material);
      var info := Description(formatted);
      var local := MatchByMultipleFields(table, formatted);
      assert classify(st, material) == Decide(st, info, local) by {
        assert classify(st, material) == Classify(st, material);
      }
      if local.Some? {
        assert pauses + [] == pauses;
        var result := new Classification(LocalResult(local.value.0, local.value.1));
        var valid := Validate(table, result, show);
        if valid.Err? {
          return Err(Rejected(valid.error));
        }
        return Ok(result.fields);
      }
      var api := CallApi(info);
      if api.Err? {
        return Err(ApiFailed(api.error));
      }
      var result := new Classification(api.value);
      var valid := Validate(table, result, show);
      if valid.Err? {
        return Err(Rejected(valid.error));
      }
      return Ok(result.fields);
    }

    /** `classify_batch(materials_list)`. */
    method ClassifyBatch(materials: seq<Row>) returns (results: seq<Record>)
      requires Valid()
      modifies this`posts, this`failures, this`pauses
      ensures var o := Run(classify, materials, ApiState(old(posts), old(failures)));
        results == o.records && posts == o.state.posts && failures == o.state.failures &&
        pauses == old(pauses) + o.pauses
      ensures |results| == |materials| && forall i :: 0 <= i < |materials| ==> results[i].original == materials[i]
      ensures RateLimits(pauses) == RateLimits(old(pauses)) + if materials == [] then 0 else |materials| - 1
    {
      ghost var total := Run(classify, materials, ApiState(posts, failures));
      ghost var before := pauses;
      ghost var slept: seq<Pause> := [];
      results := [];
      var i := 0;
      assert materials[0..] == materials;
      while i < |materials|
        invariant i <= |materials|
        invariant pauses == before + slept
        invariant After(classify, materials, total, i, results, ApiState(posts, failures), slept)
      {
        ghost var st := ApiState(posts, failures);
        ghost var s := classify(st, materials[i]);
        AfterOneMore(classify, materials, total, i, results, st, slept);
        ghost var pausesBefore := pauses;
        var r := ClassifyMaterial(materials[i]);
        assert r == s.result && ApiState(posts, failures) == s.state && pauses == pausesBefore + s.pauses;
        results := results + [RecordOf(materials[i], r)];
        PausesAppend(before, slept, s.pauses);
        slept := slept + s.pauses;
        if i < |materials| - 1 {
          pauses := pauses + [RateLimit];
          PausesAppend(before, slept, [RateLimit]);
          slept := slept + [RateLimit];
        }
        assert ApiState(posts, failures) == s.state;
        assert After(classify, materials, total, i + 1, results, ApiState(posts, failures), slept);
        i := i + 1;
      }
      assert materials[i..] == [];
      NoRateLimitInside();
      RunShape(classify, materials, ApiState(old(posts), old(failures)));
      RateLimitsAppend(before, total.pauses);
    }

    // -------------------------------------------------------------------------
    // Properties

    /**
     * The local matcher goes first: its hit is returned as built, tagged
     * "keyword_matcher", with no request, no sleep and the counters untouched.
     */
    lemma LocalMatchKept(st: ApiState, material: Row)
      requires WellFormed(table)
      requires FirstFields(table, Formatted(material)).Some?
      ensures var pair := FirstFields(table, Formatted(material)).value;
        Classify(st, material) == Step(Ok(LocalResult(pair.0, pair.1)), st, [])
    {
      FirstFieldsFromTable(table, Formatted(material));
      var p :| p in table && FirstFields(table, Formatted(material)).value == (p.1.main, p.1.sub);
      LocalMatchValidates(table, p, show);
    }

    /**
     * Only on a miss is the model asked: between one and `maxRetries`
     * requests, every one with the template filled in with the material's
     * description, and a success resets the failure counter.
     */
    lemma MissAsksApi(st: ApiState, material: Row)
      requires maxRetries > 0
      requires FirstFields(table, Formatted(material)).None?
      ensures var s := Classify(st, material);
        st.posts + 1 <= s.state.posts <= st.posts + maxRetries &&
        (s.result.Ok? ==> s.state.failures == 0)
    {
      var step := Attempts(Description(Formatted(material)));
      LateCountedPosts(step, st.posts, 0, maxRetries, st.failures);
      LateCountedFailures(step, st.posts, 0, maxRetries, st.failures);
    }

    /**
     * An answer from the model that passes validation names a taxonomy entry
     * in its original spelling and is tagged "deepseek_api".
     */
    lemma ApiClassified(st: ApiState, info: string)
      requires Wired() && WellFormed(table)
      requires Decide(st, info, None).result.Ok?
      ensures var r := Decide(st, info, None).result.value;
          (exists p :: p in table &&
            Get(r, MAIN_KEY) == Some(JString(p.1.main)) &&
            Get(r, SUB_KEY) == Some(JString(p.1.sub))) &&
           Get(r, SOURCE_KEY) == Some(JString(API_SOURCE))
    {
      var step := Attempts(info);
      forall k: nat
        ensures step(k).Ok? ==> Get(step(k).value, SOURCE_KEY) == Some(JString(API_SOURCE))
      {
        ParserAttemptShape(network(k, PromptFor(info)), parseOutput);
      }
      LateCountedTagged(step, st.posts, maxRetries, st.failures, API_SOURCE);
      var c := LateCounted(step, st.posts, 0, maxRetries, st.failures);
      AnsweredIsStandard(table, c.result, show, API_SOURCE);
    }

    /**
     * Every classification returned names a taxonomy entry in its original
     * spelling and says where it came from: the local matcher or the model.
     */
    lemma ClassifiedIsStandard(st: ApiState, material: Row)
      requires Wired() && WellFormed(table)
      ensures var s := Classify(st, material);
        s.result.Ok? ==>
          (exists p :: p in table &&
            Get(s.result.value, MAIN_KEY) == Some(JString(p.1.main)) &&
            Get(s.result.value, SUB_KEY) == Some(JString(p.1.sub))) &&
          (Get(s.result.value, SOURCE_KEY) == Some(JString(LOCAL_SOURCE)) ||
           Get(s.result.value, SOURCE_KEY) == Some(JString(API_SOURCE)))
    {
      var info := Description(Formatted(material));
      var local := FirstFields(table, Formatted(material));
      FirstFieldsFromTable(table, Formatted(material));
      if local.Some? {
        LocalPickIsStandard(table, local.value, show);
      } else if Decide(st, info, local).result.Ok? {
        ApiClassified(st, info);
      }
    }

    /** Classifying any material, in any state, sleeps only to back off, never for the rate limit. */
    lemma NoRateLimitInside()
      requires Valid()
      ensures forall st: ApiState, material: Row :: RateLimits(classify(st, material).pauses) == 0
    {
      forall st: ApiState, material: Row
        ensures RateLimits(classify(st, material).pauses) == 0
      {
        assert classify(st, material) == Classify(st, material);
        var formatted := Formatted(material);
        if FirstFields(table, formatted).None? && maxRetries > 0 {
          var step := Attempts(Description(formatted));
          LateCountedBackoff(step, st.posts, 0, maxRetries, st.failures);
          BackoffsOnly(LateCounted(step, st.posts, 0, maxRetries, st.failures).pauses);
        }
      }
    }
  }
}
