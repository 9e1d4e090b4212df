/**
 * The texts sent to the LLM: the category-rules section built from the
 * taxonomy (grouped by main category in first-appearance order), the
 * comprehensive system prompt around it, the per-material user prompt, and
 * the material description `k=v, k=v` those prompts carry.
 */
module Prompt {
  import opened Wrappers
  import opened Text
  import opened Assoc
  import opened Taxonomy
  import opened Material

  // ---------------------------------------------------------------------------
  // The category-rules section

  /**
   * One rule line. The web classifier (whose taxonomy has a brands column)
   * appends the keywords, explanation and common brands when non-empty; the
   * LangChain classifier appends the keywords and the notes.
   */
  function Line(e: Entry, layout: Layout): string {
    "- 大类：" + e.main + "，二级类：" + e.sub
    + (if e.keywords != [] then "，关键词：" + e.keywords else [])
    + (if layout == WithBrands then
         (if e.notes != [] then "，释义：" + e.notes else [])
         + (if e.brands != [] then "，常用品牌：" + e.brands else [])
       else
         (if e.notes != [] then "，备注：" + e.notes else []))
    + "\n"
  }

  /** The line format of a layout. */
  function LineOf(layout: Layout): Entry -> string {
    (e: Entry) => Line(e, layout)
  }

  /** The taxonomy's values in iteration order. */
  function Entries(t: Table): (es: seq<Entry>)
    ensures |es| == |t| && forall i :: 0 <= i < |t| ==> es[i] == t[i].1
  {
    seq(|t|, i requires 0 <= i < |t| => t[i].1)
  }

  /** `categories`: original main category to its entries. */
  type Groups = Pairs<string, seq<Entry>>

  /** `categories[orig_main].append(...)`, creating the list first if needed. */
  function AddToGroup(g: Groups, e: Entry): Groups {
    Put(g, e.main, GetOr(g, e.main, []) + [e])
  }

  /** `categories` after the grouping loop over `es`. */
  function Group(es: seq<Entry>): Groups {
    if es == [] then []
    else
      var n := |es| - 1;
      AddToGroup(Group(es[..n]), es[n])
  }

  /** The entries of every group, group after group. */
  function Flatten(g: Groups): seq<Entry> {
    if g == [] then [] else g[0].1 + Flatten(g[1..])
  }

  /** The lines `line(e)` of the entries `es`, one after the other. */
  function Lines(es: seq<Entry>, line: Entry -> string): string {
    if es == [] then []
    else
      var n := |es| - 1;
      Lines(es[..n], line) + line(es[n])
  }

  /** The rules section: the lines of the grouped entries. */
  function RuleText(t: Table, layout: Layout): string {
    Lines(Flatten(Group(Entries(t))), LineOf(layout))
  }

  /** The distinct main categories of `es` in order of first appearance. */
  function Mains(es: seq<Entry>): seq<string> {
    if es == [] then []
    else
      var n := |es| - 1;
      var ms := Mains(es[..n]);
      if es[n].main in ms then ms else ms + [es[n].main]
  }

  /** The entries of `es` with main category `m`, in order. */
  function WithMain(es: seq<Entry>, m: string): seq<Entry> {
    if es == [] then []
    else
      var n := |es| - 1;
      WithMain(es[..n], m) + (if es[n].main == m then [es[n]] else [])
  }

  /** The entries of each main category of `ms` in turn. */
  function ByMains(ms: seq<string>, es: seq<Entry>): seq<Entry> {
    if ms == [] then [] else WithMain(es, ms[0]) + ByMains(ms[1..], es)
  }

  /**
   * The category-rules part of `build_comprehensive_prompt`: group the
   * entries by original main category, then append one line per entry.
   */
  method BuildRules(t: Table, layout: Layout) returns (rules: string)
    ensures rules == RuleText(t, layout)
  {
    var categories := GroupEntries(t);
    var line := LineOf(layout);
    rules := "";
    ghost var done: seq<Entry> := [];
    var gi := 0;
    while gi < |categories|
      invariant 0 <= gi <= |categories|
      invariant rules == Lines(done, line)
      invariant done + Flatten(categories[gi..]) == Flatten(categories)
    {
      assert categories[gi..][1..] == categories[gi + 1..];
      assert Flatten(categories[gi..]) == categories[gi].1 + Flatten(categories[gi + 1..]);
      assert done + Flatten(categories[gi..]) == (done + categories[gi].1) + Flatten(categories[gi + 1..]);
      rules := AppendLines(rules, categories[gi].1, line, done);
      done := done + categories[gi].1;
      gi := gi + 1;
    }
    assert categories[gi..] == [];
    assert done == Flatten(categories);
  }

  /** The grouping loop of `build_comprehensive_prompt`. */
  method GroupEntries(t: Table) returns (categories: Groups)
    ensures categories == Group(Entries(t))
  {
    ghost var es := Entries(t);
    categories := [];
    var i := 0;
    while i < |t|
      invariant 0 <= i <= |t|
      invariant categories == Group(es[..i])
    {
      var e := t[i].1;
      GroupSnoc(es, i);
      AddToGroupSteps(categories, e);
      if e.main !in Keys(categories) {
        categories := Put(categories, e.main, []);
      }
      var members := Get(categories, e.main).value;
      categories := Put(categories, e.main, members + [e]);
      i := i + 1;
    }
    assert es[..i] == es;
  }

  lemma GroupSnoc(es: seq<Entry>, i: nat)
    requires i < |es|
    ensures Group(es[..i + 1]) == AddToGroup(Group(es[..i]), es[i])
  {
    assert es[..i + 1][..i] == es[..i];
  }

  /** `categories[m] = []` when `m` is new, then `categories[m].append(e)`, is one `AddToGroup`. */
  lemma AddToGroupSteps(g: Groups, e: Entry)
    ensures var g1 := if e.main !in Keys(g) then Put(g, e.main, []) else g;
      Get(g1, e.main).Some? && Put(g1, e.main, Get(g1, e.main).value + [e]) == AddToGroup(g, e)
  {
    if e.main !in Keys(g) {
      var g1 := Put(g, e.main, []);
      GetPut(g, e.main, [], e.main);
      GetFound(g, e.main);
      assert GetOr(g, e.main, []) == [];
      PutPut(g, e.main, [], [] + [e]);
    }
  }

  /** The inner loop: the lines of one group appended to `prefix`. */
  method AppendLines(prefix: string, members: seq<Entry>, line: Entry -> string, ghost done: seq<Entry>) returns (rules: string)
    requires prefix == Lines(done, line)
    ensures rules == Lines(done + members, line)
  {
    rules := prefix;
    var j := 0;
    assert done + members[..0] == done;
    while j < |members|
      invariant 0 <= j <= |members|
      invariant rules == Lines(done + members[..j], line)
    {
      assert (done + members[..j + 1])[..|done| + j] == done + members[..j];
      rules := rules + line(members[j]);
      j := j + 1;
    }
    assert members[..j] == members;
  }

  /** `build_comprehensive_prompt` of the web classifier: base template, rules, examples. */
  method BuildComprehensivePrompt(t: Table, base: string, examples: string) returns (p: string)
    ensures p == base + RuleText(t, WithBrands) + examples
  {
    var rules := BuildRules(t, WithBrands);
    p := base + rules + examples;
  }

  // ---------------------------------------------------------------------------
  // Properties of the rules section

  /**
   * The grouping: one group per main category, in first-appearance order,
   * holding that category's entries in taxonomy order.
   */
  lemma {:induction false} GroupByMain(es: seq<Entry>)
    ensures DistinctKeys(Group(es)) && Keys(Group(es)) == Mains(es)
    ensures forall m :: m in Mains(es) ==> Get(Group(es), m) == Some(WithMain(es, m))
    ensures forall m :: m !in Mains(es) ==> WithMain(es, m) == []
  {
    if es != [] {
      var n := |es| - 1;
      var e := es[n];
      var g := Group(es[..n]);
      GroupByMain(es[..n]);
      var v := GetOr(g, e.main, []) + [e];
      var g' := Put(g, e.main, v);
      assert Group(es) == g';
      PutDistinct(g, e.main, v);
      PutShape(g, e.main, v);
      if e.main !in Keys(g) {
        assert g' == g + [(e.main, v)];
        assert Keys(g') == Keys(g) + [e.main];
      }
      var prev := es[..n];
      assert Mains(es) == if e.main in Mains(prev) then Mains(prev) else Mains(prev) + [e.main];
      forall m | m !in Mains(es)
        ensures WithMain(es, m) == []
      {
        assert WithMain(es, m) == WithMain(prev, m) + (if e.main == m then [e] else []);
      }
      forall m | m in Mains(es)
        ensures Get(g', m) == Some(WithMain(es, m))
      {
        GroupStep(es, m);
      }
    }
  }

  /** One step of the grouping, for one main category. */
  lemma GroupStep(es: seq<Entry>, m: string)
    requires es != [] && m in Mains(es)
    requires var prev := es[..|es| - 1];
      Keys(Group(prev)) == Mains(prev) &&
      (forall m' :: m' in Mains(prev) ==> Get(Group(prev), m') == Some(WithMain(prev, m'))) &&
      (forall m' :: m' !in Mains(prev) ==> WithMain(prev, m') == [])
    ensures Get(Group(es), m) == Some(WithMain(es, m))
  {
    var n := |es| - 1;
    var e := es[n];
    var prev := es[..n];
    var g := Group(prev);
    var v := GetOr(g, e.main, []) + [e];
    assert Group(es) == Put(g, e.main, v);
    GetPut(g, e.main, v, m);
    assert WithMain(es, m) == WithMain(prev, m) + (if e.main == m then [e] else []);
    if m == e.main {
      assert Get(Group(es), m) == Some(v);
      if m in Mains(prev) {
        assert GetOr(g, m, []) == WithMain(prev, m);
      } else {
        GetFound(g, m);
        assert GetOr(g, m, []) == [] == WithMain(prev, m);
      }
      assert v == WithMain(es, m);
      assert Get(Group(es), m) == Some(WithMain(es, m));
    } else {
      assert m in Mains(prev);
      assert Get(Group(es), m) == Get(g, m);
      assert WithMain(es, m) == WithMain(prev, m);
      assert Get(Group(es), m) == Some(WithMain(es, m));
    }
  }

  /** Assigning a group replaces its entries among the flattened ones. */
  lemma {:induction false} FlattenPut(g: Groups, k: string, v: seq<Entry>)
    ensures multiset(Flatten(Put(g, k, v))) + multiset(GetOr(g, k, [])) == multiset(Flatten(g)) + multiset(v)
  {
    var p := Put(g, k, v);
    if g == [] {
      assert p == [(k, v)];
      assert Flatten(p) == v + Flatten([]);
    } else if g[0].0 == k {
      assert p == [(k, v)] + g[1..];
      assert p[1..] == g[1..];
      assert Flatten(p) == v + Flatten(g[1..]);
      assert GetOr(g, k, []) == g[0].1;
    } else {
      FlattenPut(g[1..], k, v);
      assert p == [g[0]] + Put(g[1..], k, v);
      assert p[1..] == Put(g[1..], k, v);
      assert Flatten(p) == g[0].1 + Flatten(Put(g[1..], k, v));
      assert GetOr(g, k, []) == GetOr(g[1..], k, []);
      var a, b, c, d := multiset(g[0].1), multiset(Flatten(Put(g[1..], k, v))), multiset(GetOr(g[1..], k, [])), multiset(Flatten(g[1..]));
      assert b + c == d + multiset(v);
      assert multiset(Flatten(p)) == a + b;
      assert multiset(Flatten(g)) == a + d;
      assert (a + b) + c == a + (b + c);
      assert a + (d + multiset(v)) == (a + d) + multiset(v);
    }
  }

  /** The rules section has exactly one line per taxonomy entry: the grouping loses and repeats none. */
  lemma {:induction false} OneLinePerEntry(es: seq<Entry>)
    ensures multiset(Flatten(Group(es))) == multiset(es)
  {
    if es != [] {
      var n := |es| - 1;
      OneLinePerEntry(es[..n]);
      var g := Group(es[..n]);
      var before := GetOr(g, es[n].main, []);
      var after := Put(g, es[n].main, before + [es[n]]);
      assert Group(es) == after;
      FlattenPut(g, es[n].main, before + [es[n]]);
      MultisetCancel(multiset(Flatten(after)), multiset(before), multiset(Flatten(g)), multiset{es[n]});
      assert es == es[..n] + [es[n]];
    }
  }

  lemma MultisetCancel<T>(x: multiset<T>, b: multiset<T>, y: multiset<T>, e: multiset<T>)
    requires x + b == y + (b + e)
    ensures x == y + e
  {
    forall z ensures x[z] == (y + e)[z] {
      assert (x + b)[z] == (y + (b + e))[z];
    }
  }

  /** Groups whose values are the entries of their keys flatten category by category. */
  lemma {:induction false} FlattenByKeys(g: Groups, es: seq<Entry>)
    requires forall i :: 0 <= i < |g| ==> g[i].1 == WithMain(es, g[i].0)
    ensures Flatten(g) == ByMains(Keys(g), es)
  {
    if g != [] {
      FlattenByKeys(g[1..], es);
      assert Keys(g)[1..] == Keys(g[1..]);
    }
  }

  /**
   * The rules list every entry of the first main category (in taxonomy
   * order), then every entry of the next one to appear, and so on.
   */
  lemma RulesGrouped(t: Table, layout: Layout)
    ensures RuleText(t, layout) == Lines(ByMains(Mains(Entries(t)), Entries(t)), LineOf(layout))
  {
    var es := Entries(t);
    var g := Group(es);
    GroupByMain(es);
    forall i | 0 <= i < |g|
      ensures g[i].1 == WithMain(es, g[i].0)
    {
      GetAt(g, i);
      assert g[i].0 == Keys(g)[i];
    }
    FlattenByKeys(g, es);
  }

  /** Lines concatenate: the text of two runs of entries is the text of each. */
  lemma {:induction false} LinesAppend(a: seq<Entry>, b: seq<Entry>, line: Entry -> string)
    ensures Lines(a + b, line) == Lines(a, line) + Lines(b, line)
  {
    if b == [] {
      assert a + b == a;
    } else {
      var n := |b| - 1;
      LinesAppend(a, b[..n], line);
      assert (a + b)[..|a| + n] == a + b[..n];
    }
  }

  /** Every rule line names its entry first and ends the line. */
  lemma LineShape(e: Entry, layout: Layout)
    ensures StartsWith(Line(e, layout), "- 大类：" + e.main + "，二级类：" + e.sub)
    ensures EndsWith(Line(e, layout), "\n")
  {
  }

  // ---------------------------------------------------------------------------
  // The material description and the user prompt

  /**
   * `formatted_data`: the five fields under their short names. `get` with a
   * default, so a present 图号/型号 (or 分类/品牌) wins even when empty.
   */
  function Formatted(row: Row): Row {
    [ (MODEL, GetOr(row, DRAWING_MODEL, GetOr(row, MODEL, ""))),
      (BRAND, GetOr(row, CATEGORY_BRAND, GetOr(row, BRAND, ""))),
      (SUPPLIER, GetOr(row, SUPPLIER, "")),
      (NAME, GetOr(row, NAME, "")),
      (MATERIAL, GetOr(row, MATERIAL, "")) ]
  }

  /** `"k=v"` for every non-empty value, in order. */
  function Assignments(fields: Row): (r: seq<string>)
    ensures |r| <= |fields|
  {
    if fields == [] then []
    else
      var rest := Assignments(fields[1..]);
      if fields[0].1 != [] then [fields[0].0 + "=" + fields[0].1] + rest else rest
  }

  /** `material_info`: the assignments joined by ", ". */
  function Description(fields: Row): string {
    Join(Assignments(fields), ", ")
  }

  /** The description is empty exactly when every field is empty. */
  lemma {:induction false} DescriptionEmpty(fields: Row)
    ensures Description(fields) == [] <==> forall i :: 0 <= i < |fields| ==> fields[i].1 == []
  {
    if fields != [] {
      DescriptionEmpty(fields[1..]);
      var rest := Assignments(fields[1..]);
      if fields[0].1 != [] {
        assert Assignments(fields)[0] == fields[0].0 + "=" + fields[0].1;
      } else {
        forall i | 1 <= i < |fields| ensures fields[i].1 == fields[1..][i - 1].1 { }
      }
    }
  }

  /** The description lists the non-empty fields, each as `key=value`, in field order. */
  lemma {:induction false} AssignmentsListed(fields: Row, i: nat)
    requires i < |fields| && fields[i].1 != []
    ensures fields[i].0 + "=" + fields[i].1 in Assignments(fields)
  {
    if i > 0 {
      AssignmentsListed(fields[1..], i - 1);
    }
  }

  /** A present 图号/型号 is the model, whatever 型号 holds. */
  lemma DrawingModelWins(row: Row)
    requires DRAWING_MODEL in Keys(row)
    ensures Get(Formatted(row), MODEL) == Get(row, DRAWING_MODEL)
  {
  }

  const REQUEST_HEAD := "现在请对以下物料进行分类：\n物料信息："
  const REQUEST_TAIL := "\n分类结果："

  /** `_generate_prompt` of the web classifier. */
  function UserPrompt(info: string): string {
    REQUEST_HEAD + info + REQUEST_TAIL
  }

  /** The description can be read back out of the user prompt. */
  lemma UserPromptCarriesInfo(info: string)
    ensures var p := UserPrompt(info);
      |p| == |REQUEST_HEAD| + |info| + |REQUEST_TAIL| &&
      p[|REQUEST_HEAD|..|REQUEST_HEAD| + |info|] == info
  {
  }

  /** Different descriptions never give the same user prompt. */
  lemma UserPromptDetermines(a: string, b: string)
    requires UserPrompt(a) == UserPrompt(b)
    ensures a == b
  {
    UserPromptCarriesInfo(a);
    UserPromptCarriesInfo(b);
  }

  /**
   * The LangChain classifier's filled-in template: base template, rules,
   * examples, a blank line, the request and the output parser's format
   * instructions.
   */
  function ParserPrompt(t: Table, base: string, examples: string, info: string, formatInstructions: string): string {
    base + RuleText(t, WithoutBrands) + examples + "\n\n" + REQUEST_HEAD + info + REQUEST_TAIL + formatInstructions
  }

  /**
   * `build_comprehensive_prompt().format(material_info=info)` of the LangChain
   * classifier: the rules rebuilt from the taxonomy, then the template filled in.
   */
  method BuildParserPrompt(t: Table, base: string, examples: string, info: string, formatInstructions: string)
    returns (p: string)
    ensures p == ParserPrompt(t, base, examples, info, formatInstructions)
  {
    var rules := BuildRules(t, WithoutBrands);
    p := base + rules + examples + "\n\n" + REQUEST_HEAD + info + REQUEST_TAIL + formatInstructions;
  }

  /** The LangChain prompt is the system prompt built like the web one, then the web user prompt. */
  lemma ParserPromptSplits(t: Table, base: string, examples: string, info: string, formatInstructions: string)
    ensures ParserPrompt(t, base, examples, info, formatInstructions) ==
      (base + RuleText(t, WithoutBrands) + examples) + "\n\n" + UserPrompt(info) + formatInstructions
  {
  }

  /**
   * With the same template, rules, examples and format instructions,
   * different descriptions never give the same LangChain prompt.
   */
  lemma ParserPromptDetermines(t: Table, base: string, examples: string, a: string, b: string, formatInstructions: string)
    requires ParserPrompt(t, base, examples, a, formatInstructions) == ParserPrompt(t, base, examples, b, formatInstructions)
    ensures a == b
  {
    var head := base + RuleText(t, WithoutBrands) + examples + "\n\n" + REQUEST_HEAD;
    var pa := ParserPrompt(t, base, examples, a, formatInstructions);
    assert pa == head + a + (REQUEST_TAIL + formatInstructions);
    assert ParserPrompt(t, base, examples, b, formatInstructions) == head + b + (REQUEST_TAIL + formatInstructions);
    assert |a| == |b|;
    assert pa[|head|..|head| + |a|] == a;
    assert pa[|head|..|head| + |b|] == b;
  }
}
