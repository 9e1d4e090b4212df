/**
 * What the classifiers do with the text an LLM endpoint sends back: the
 * emptiness and type checks on the message content, the whole-text parse,
 * the markdown-fence clean-up, the last non-greedy `{…}` (or `[…]`) span,
 * and the checks on the decoded value.
 */
module Extraction {
  import opened Wrappers
  import opened Text
  import opened Assoc
  import opened Json

  type byte = bv8

  /** `response.choices[0].message.content` as the client library hands it over. */
  datatype Content =
    | Absent
    | Text(s: string)
    | Bytes(b: seq<byte>)
    /** Any other object the library returns, standing for its JSON-like value. */
    | Other(v: Json)

  /** One exchange with the endpoint: the request failed, or a message came back. */
  datatype Reply = Unreachable | Delivered(content: Content)

  /** Why one attempt failed. */
  datatype ApiError =
    | Transport           // the client or the HTTP layer raised
    | EmptyContent        // "API返回内容为空"
    | NotText             // the content is not a string, so parsing raises TypeError
    | NotJson             // `json.loads` (or the output parser) raised
    | NotObject           // "API返回的JSON不是预期的对象格式"
    | MissingField        // "API返回的JSON缺少必要字段"
    | NoAttempts          // the retry loop ran zero times and returned None

  const MAIN_KEY := "main_category"
  const SUB_KEY := "sub_category"
  const SOURCE_KEY := "classification_source"
  const API_SOURCE := "deepseek_api"

  /** `not content`. */
  predicate Falsy(c: Content) {
    match c
    case Absent => true
    case Text(s) => s == []
    case Bytes(b) => b == []
    case Other(v) => !Truthy(v)
  }

  /** Bytes decoded (`decode` stands for `decode("utf-8", errors="ignore")`), anything else through `str`. */
  function AsText(c: Content, decode: seq<byte> -> string, show: Json -> string): string {
    match c
    case Absent => []
    case Text(s) => s
    case Bytes(b) => decode(b)
    case Other(v) => Str(v, show)
  }

  // ---------------------------------------------------------------------------
  // Fence clean-up

  /** `c[3:-3]`. */
  function Inner(c: string): (r: string)
    ensures |c| >= 6 ==> r == c[3..|c| - 3]
    ensures |c| < 6 ==> r == []
  {
    if |c| >= 6 then c[3..|c| - 3] else []
  }

  /**
   * A ``` fence is removed only when the stripped text both starts and ends
   * with one; then a leading `json` language tag goes too.
   */
  function Unfence(c: string): string
  {
    if StartsWith(c, "```") && EndsWith(c, "```") then
      var d := Strip(Inner(c));
      if StartsWith(d, "json") then Strip(d[4..]) else d
    else c
  }

  /** `cleaned_content` before the span search. */
  function Cleaned(content: string): string {
    Unfence(Strip(content))
  }

  // ---------------------------------------------------------------------------
  // Non-greedy spans

  /** The first index at or after `from` holding `c`, or `|s|` when there is none. */
  function IndexOf(s: string, c: char, from: nat): (i: nat)
    requires from <= |s|
    ensures from <= i <= |s|
    ensures i < |s| ==> s[i] == c
    decreases |s| - from
  {
    if from == |s| then |s|
    else if s[from] == c then from
    else IndexOf(s, c, from + 1)
  }

  /** Nothing before the index found holds the character. */
  lemma {:induction false} IndexOfFirst(s: string, c: char, from: nat)
    requires from <= |s|
    ensures forall k :: from <= k < IndexOf(s, c, from) ==> s[k] != c
    decreases |s| - from
  {
    if from < |s| && s[from] != c {
      IndexOfFirst(s, c, from + 1);
    }
  }

  /**
   * What `re.findall` returns for the non-greedy pattern open, anything, close
   * (with `re.DOTALL`): the search moves past every character that is not
   * `open`; at an `open` it takes the text up to the first `close` after it
   * and goes on after that `close`; an `open` with no `close` after it ends
   * the search.
   */
  function Spans(s: string, open: char, close: char): seq<string>
    decreases |s|
  {
    if s == [] then []
    else if s[0] != open then Spans(s[1..], open, close)
    else
      var j := IndexOf(s, close, 1);
      if j == |s| then [] else [s[..j + 1]] + Spans(s[j + 1..], open, close)
  }

  /** A span as the search returns it: from `open` to the first `close` after it. */
  predicate Flat(o: string, open: char, close: char) {
    |o| >= 2 && o[0] == open && o[|o| - 1] == close &&
    forall k :: 1 <= k < |o| - 1 ==> o[k] != close
  }

  /** `s` has no `c`. */
  predicate Free(s: string, c: char) {
    forall k :: 0 <= k < |s| ==> s[k] != c
  }

  /** The span search over `x` consumes it completely: no `open` is left dangling. */
  predicate Closed(x: string, open: char, close: char)
    decreases |x|
  {
    if x == [] then true
    else if x[0] != open then Closed(x[1..], open, close)
    else
      var j := IndexOf(x, close, 1);
      j < |x| && Closed(x[j + 1..], open, close)
  }

  /** `json_part`: the last `{…}` span, else the last `[…]` span, else the cleaned text. */
  function JsonPart(cleaned: string): string {
    var objects := Spans(cleaned, '{', '}');
    if objects != [] then objects[|objects| - 1]
    else
      var arrays := Spans(cleaned, '[', ']');
      if arrays != [] then arrays[|arrays| - 1] else cleaned
  }

  // ---------------------------------------------------------------------------
  // Decoding one reply

  /** The web classifier's parse: the whole text, else the extracted part of the cleaned text. */
  function WebParse(text: string, parse: string -> Option<Json>): Option<Json> {
    match parse(text)
    case Some(j) => Some(j)
    case None => parse(JsonPart(Cleaned(text)))
  }

  /** The fence-only parse of the direct-HTTP classifier: no span search. */
  function FenceParse(text: string, parse: string -> Option<Json>): Option<Json> {
    match parse(text)
    case Some(j) => Some(j)
    case None => parse(Cleaned(text))
  }

  /** The value must be an object holding both category keys; it is returned as is. */
  function Accept(parsed: Option<Json>): Result<Pairs<string, Json>, ApiError> {
    match parsed
    case None => Err(NotJson)
    case Some(JObject(fields)) =>
      if MAIN_KEY in Keys(fields) && SUB_KEY in Keys(fields) then Ok(fields) else Err(MissingField)
    case Some(_) => Err(NotObject)
  }

  /** The object with its source tagged `deepseek_api`. */
  function Tagged(fields: Pairs<string, Json>): Pairs<string, Json> {
    Put(fields, SOURCE_KEY, JString(API_SOURCE))
  }

  /** One attempt of the web classifier's `_call_deepseek_api`. */
  function WebAttempt(reply: Reply, parse: string -> Option<Json>, decode: seq<byte> -> string,
                      show: Json -> string): Result<Pairs<string, Json>, ApiError>
  {
    match reply
    case Unreachable => Err(Transport)
    case Delivered(c) =>
      if Falsy(c) then Err(EmptyContent)
      else
        match Accept(WebParse(AsText(c, decode, show), parse))
        case Ok(fields) => Ok(Tagged(fields))
        case Err(e) => Err(e)
  }

  /**
   * One attempt of the LangChain classifier: the output parser's value must be
   * a dict (assigning the source key to anything else raises); no key check.
   */
  function ParserAttempt(reply: Reply, parseOutput: string -> Option<Json>): Result<Pairs<string, Json>, ApiError> {
    match reply
    case Unreachable => Err(Transport)
    case Delivered(c) =>
      if !c.Text? then Err(NotText)
      else
        match parseOutput(c.s)
        case None => Err(NotJson)
        case Some(JObject(fields)) => Ok(Tagged(fields))
        case Some(_) => Err(NotObject)
  }

  /** One attempt of the direct-HTTP classifier: fence-only parse, both keys, no source tag. */
  function FenceAttempt(reply: Reply, parse: string -> Option<Json>): Result<Pairs<string, Json>, ApiError> {
    match reply
    case Unreachable => Err(Transport)
    case Delivered(c) =>
      if !c.Text? then Err(NotText) else Accept(FenceParse(c.s, parse))
  }

  // ---------------------------------------------------------------------------
  // Properties

  /** Tagging sets the source key and leaves every other key as it was. */
  lemma TaggedKeeps(g: Pairs<string, Json>)
    ensures Get(Tagged(g), SOURCE_KEY) == Some(JString(API_SOURCE))
    ensures forall k :: k != SOURCE_KEY ==> Get(Tagged(g), k) == Get(g, k)
  {
    forall k ensures Get(Tagged(g), k) == if k == SOURCE_KEY then Some(JString(API_SOURCE)) else Get(g, k) {
      GetPut(g, SOURCE_KEY, JString(API_SOURCE), k);
    }
  }

  /**
   * A successful web attempt is the accepted object (so both category keys
   * are present) with its source tagged `deepseek_api`; empty content fails
   * before any parsing.
   */
  lemma WebAttemptShape(reply: Reply, parse: string -> Option<Json>, decode: seq<byte> -> string, show: Json -> string)
    ensures WebAttempt(reply, parse, decode, show).Ok? ==>
      var f := WebAttempt(reply, parse, decode, show).value;
      Get(f, SOURCE_KEY) == Some(JString(API_SOURCE)) &&
      Get(f, MAIN_KEY).Some? && Get(f, SUB_KEY).Some? &&
      forall k :: k != SOURCE_KEY ==> Get(f, k) == Get(Accept(WebParse(AsText(reply.content, decode, show), parse)).value, k)
    ensures reply.Delivered? && Falsy(reply.content) ==> WebAttempt(reply, parse, decode, show) == Err(EmptyContent)
  {
    var r := WebAttempt(reply, parse, decode, show);
    if r.Ok? {
      var g := Accept(WebParse(AsText(reply.content, decode, show), parse)).value;
      assert r.value == Tagged(g);
      TaggedKeeps(g);
      GetFound(g, MAIN_KEY);
      GetFound(g, SUB_KEY);
      assert MAIN_KEY != SOURCE_KEY && SUB_KEY != SOURCE_KEY;
    }
  }

  /**
   * A successful LangChain attempt is the parsed object with its source
   * tagged `deepseek_api`: no key is checked, every other key is kept.
   */
  lemma ParserAttemptShape(reply: Reply, parseOutput: string -> Option<Json>)
    ensures ParserAttempt(reply, parseOutput).Ok? ==>
      reply.Delivered? && reply.content.Text? && parseOutput(reply.content.s).Some? &&
      parseOutput(reply.content.s).value.JObject? &&
      var f := ParserAttempt(reply, parseOutput).value;
      Get(f, SOURCE_KEY) == Some(JString(API_SOURCE)) &&
      forall k :: k != SOURCE_KEY ==> Get(f, k) == Get(parseOutput(reply.content.s).value.fields, k)
    ensures ParserAttempt(reply, parseOutput).Err? <==>
      reply.Unreachable? || !reply.content.Text? || parseOutput(reply.content.s).None? ||
      !parseOutput(reply.content.s).value.JObject?
  {
    if ParserAttempt(reply, parseOutput).Ok? {
      TaggedKeeps(parseOutput(reply.content.s).value.fields);
    }
  }

  /** A text that parses whole is used as is: the fallback is never consulted. */
  lemma WholeTextFirst(text: string, parse: string -> Option<Json>)
    requires parse(text).Some?
    ensures WebParse(text, parse) == parse(text) && FenceParse(text, parse) == parse(text)
  {
  }

  /** Every span starts with `open`, ends with the first `close` after it, and occurs in the text. */
  lemma {:induction false} SpansAreFlat(s: string, open: char, close: char)
    ensures forall o :: o in Spans(s, open, close) ==> Flat(o, open, close) && Contains(s, o)
    decreases |s|
  {
    if s == [] {
    } else if s[0] != open {
      var rest := s[1..];
      SpansAreFlat(rest, open, close);
      forall p | p in Spans(rest, open, close) ensures Contains(s, p) {
        ContainsShift(s, 1, p);
      }
    } else {
      var j := IndexOf(s, close, 1);
      if j < |s| {
        var rest := s[j + 1..];
        SpansAreFlat(rest, open, close);
        var o := s[..j + 1];
        IndexOfFirst(s, close, 1);
        assert Flat(o, open, close) by {
          forall k | 1 <= k < |o| - 1 ensures o[k] != close {
            assert o[k] == s[k];
          }
        }
        assert OccursAt(s, o, 0);
        ContainsAt(s, o);
        forall p | p in Spans(rest, open, close) ensures Contains(s, p) {
          ContainsShift(s, j + 1, p);
        }
      }
    }
  }

  /** What occurs in a suffix occurs in the whole text. */
  lemma ContainsShift(s: string, d: nat, p: string)
    requires d <= |s| && Contains(s[d..], p)
    ensures Contains(s, p)
  {
    ContainsAt(s[d..], p);
    var a :| OccursAt(s[d..], p, a);
    assert s[d + a..d + a + |p|] == s[d..][a..a + |p|];
    assert OccursAt(s, p, d + a);
    ContainsAt(s, p);
  }

  /** A text with no `open` has no spans, and leaves nothing dangling. */
  lemma {:induction false} NoOpenNoSpans(s: string, open: char, close: char)
    requires Free(s, open)
    ensures Spans(s, open, close) == [] && Closed(s, open, close)
    decreases |s|
  {
    if s != [] {
      assert s[0] != open;
      NoOpenNoSpans(s[1..], open, close);
    }
  }

  /** `IndexOf` finds the same character in `x + y` as in `x` when `x` holds one. */
  lemma {:induction false} IndexOfPrefix(x: string, y: string, c: char, from: nat)
    requires from <= |x| && IndexOf(x, c, from) < |x|
    ensures IndexOf(x + y, c, from) == IndexOf(x, c, from)
    decreases |x| - from
  {
    if x[from] != c {
      IndexOfPrefix(x, y, c, from + 1);
    }
  }

  /** The search over a consumed prefix does not reach into what follows. */
  lemma {:induction false} SpansConcat(x: string, y: string, open: char, close: char)
    requires Closed(x, open, close)
    ensures Spans(x + y, open, close) == Spans(x, open, close) + Spans(y, open, close)
    decreases |x|
  {
    if x == [] {
      assert x + y == y;
    } else if x[0] != open {
      assert (x + y)[1..] == x[1..] + y;
      SpansConcat(x[1..], y, open, close);
    } else {
      var j := IndexOf(x, close, 1);
      IndexOfPrefix(x, y, close, 1);
      assert (x + y)[j + 1..] == x[j + 1..] + y;
      assert (x + y)[..j + 1] == x[..j + 1];
      SpansConcat(x[j + 1..], y, open, close);
    }
  }

  /** A flat span is found whole and is consumed completely. */
  lemma FlatIsClosed(o: string, open: char, close: char)
    requires Flat(o, open, close)
    ensures Closed(o, open, close) && Spans(o, open, close) == [o]
  {
    IndexOfLast(o, close, 1);
    assert o[|o|..] == [];
    assert o[..|o|] == o;
  }

  lemma {:induction false} IndexOfLast(o: string, c: char, from: nat)
    requires 1 <= from <= |o| - 1 && o[|o| - 1] == c
    requires forall k :: from <= k < |o| - 1 ==> o[k] != c
    ensures IndexOf(o, c, from) == |o| - 1
    decreases |o| - from
  {
    if from < |o| - 1 {
      IndexOfLast(o, c, from + 1);
    }
  }

  /**
   * With reasoning text before and after the answer, the last object is the
   * one extracted: a consumed prefix, the answer object, and a tail with no
   * further `{`.
   */
  lemma LastObjectWins(x: string, o: string, y: string)
    requires Closed(x, '{', '}') && Flat(o, '{', '}') && Free(y, '{')
    ensures JsonPart(x + o + y) == o
  {
    FlatIsClosed(o, '{', '}');
    NoOpenNoSpans(y, '{', '}');
    SpansConcat(o, y, '{', '}');
    SpansConcat(x, o + y, '{', '}');
    assert x + o + y == x + (o + y);
  }

  /** Without any `{`, the last `[…]` span is taken; without either, the cleaned text itself. */
  lemma ArrayFallback(c: string)
    requires Free(c, '{')
    ensures Spans(c, '[', ']') != [] ==> JsonPart(c) == Spans(c, '[', ']')[|Spans(c, '[', ']')| - 1]
    ensures Free(c, '[') ==> JsonPart(c) == c
  {
    NoOpenNoSpans(c, '{', '}');
    if Free(c, '[') {
      NoOpenNoSpans(c, '[', ']');
    }
  }

  /** A text that does not begin and end with a fence is only stripped. */
  lemma NoFenceOnlyStripped(content: string)
    requires !StartsWith(Strip(content), "```") || !EndsWith(Strip(content), "```")
    ensures Cleaned(content) == Strip(content)
  {
  }

  /**
   * A reply fenced as a ```json code block: cleaning recovers the body, so
   * the fence-only parse reads the body when the whole text is not JSON.
   */
  lemma FencedJsonCleaned(body: string)
    requires body != [] && Trimmed(body)
    ensures Cleaned("```json\n" + body + "\n```") == body
  {
    var c := "```json\n" + body + "\n```";
    assert Trimmed(c) by {
      assert c[0] == '`' && c[|c| - 1] == '`';
    }
    StripOfTrimmed(c);
    assert StartsWith(c, "```") && EndsWith(c, "```");
    var d := "json\n" + body;
    assert Inner(c) == "" + d + "\n";
    assert Trimmed(d) by {
      assert d[|d| - 1] == body[|body| - 1];
    }
    StripPadded("", d, "\n");
    assert StartsWith(d, "json");
    assert d[4..] == "\n" + body + "";
    StripPadded("\n", body, "");
  }

  /** A bare ``` fence around a body that does not itself start with `json`: cleaning recovers the body. */
  lemma FencedCleaned(body: string)
    requires body != [] && Trimmed(body) && !StartsWith(body, "json")
    ensures Cleaned("```\n" + body + "\n```") == body
  {
    var c := "```\n" + body + "\n```";
    assert Trimmed(c) by {
      assert c[0] == '`' && c[|c| - 1] == '`';
    }
    StripOfTrimmed(c);
    assert StartsWith(c, "```") && EndsWith(c, "```");
    assert Inner(c) == "\n" + body + "\n";
    StripPadded("\n", body, "\n");
  }

  /** The direct-HTTP attempt on a fenced reply whose whole text is not JSON: the body's parse decides. */
  lemma FencedReplyParsed(body: string, parse: string -> Option<Json>)
    requires body != [] && Trimmed(body)
    requires parse("```json\n" + body + "\n```").None?
    ensures FenceAttempt(Delivered(Text("```json\n" + body + "\n```")), parse) == Accept(parse(body))
  {
    FencedJsonCleaned(body);
  }
}
