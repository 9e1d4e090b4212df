/**
 * The category rules written into the prompt template: the lines after the
 * header line "5. 仅使用以下分类标准中的分类：" and before the next line
 * starting "示例：", each `- 大类：X，二级类：Y`. The direct-HTTP classifier
 * loads its taxonomy from them, and the default-file generator turns them
 * into (大类, 二级类) records.
 */
module RulesBlock {
  import opened Wrappers
  import opened Text
  import opened Assoc
  import opened Taxonomy
  import opened Lists

  const HEADER := "5. 仅使用以下分类标准中的分类："
  const EXAMPLES := "示例："
  const RULE_PREFIX := "- 大类："
  const SUB_SEP := "，二级类："

  /** Why the rules cannot be read from a template. */
  datatype BlockError =
    | NoRulesSection  // "无法找到分类规则部分"
    | NoRulesParsed   // "未解析到任何分类规则"

  /** `text.split('\n')`. */
  function SplitLines(text: string): seq<string> {
    SplitOn(text, "\n")
  }

  predicate IsHeader(line: string) {
    Strip(line) == HEADER
  }

  predicate IsExamples(line: string) {
    StartsWith(Strip(line), EXAMPLES)
  }

  // ---------------------------------------------------------------------------
  // Locating the block

  /** The index of the last header line among the first `j` lines, if any. */
  function LastHeaderBefore(lines: seq<string>, j: nat): (r: Option<nat>)
    requires j <= |lines|
    ensures r.Some? ==> r.value < j
  {
    if j == 0 then None
    else if IsHeader(lines[j - 1]) then Some(j - 1)
    else LastHeaderBefore(lines, j - 1)
  }

  /**
   * From line `i` on, the first examples line that has a header line before
   * it, with the line after the last such header: the block's bounds.
   */
  function FirstEnd(lines: seq<string>, i: nat): (r: Option<(nat, nat)>)
    requires i <= |lines|
    ensures r.Some? ==> 1 <= r.value.0 <= r.value.1 < |lines|
    decreases |lines| - i
  {
    if i == |lines| then None
    else if IsExamples(lines[i]) && LastHeaderBefore(lines, i).Some? then
      Some((LastHeaderBefore(lines, i).value + 1, i))
    else FirstEnd(lines, i + 1)
  }

  /** `(start_idx, end_idx)` of the rules block, or None when the scan finds no end. */
  function Block(lines: seq<string>): (r: Option<(nat, nat)>)
    ensures r.Some? ==> 1 <= r.value.0 <= r.value.1 < |lines|
  {
    FirstEnd(lines, 0)
  }

  /** The scan of the loaders: a header line (re)sets the start, an examples line after a start ends it. */
  method FindBlock(lines: seq<string>) returns (r: Option<(nat, nat)>)
    ensures r == Block(lines)
  {
    var start: Option<nat> := None;
    var i := 0;
    while i < |lines|
      invariant i <= |lines|
      invariant start == if LastHeaderBefore(lines, i).Some? then Some(LastHeaderBefore(lines, i).value + 1) else None
      invariant FirstEnd(lines, 0) == FirstEnd(lines, i)
    {
      var line := Strip(lines[i]);
      if line == HEADER {
        NotBoth(lines[i]);
        start := Some(i + 1);
      } else if start.Some? && StartsWith(line, EXAMPLES) {
        return Some((start.value, i));
      }
      i := i + 1;
    }
    return None;
  }

  /** No line is both the header and an examples line. */
  lemma NotBoth(line: string)
    ensures !(IsHeader(line) && IsExamples(line))
  {
    if IsHeader(line) {
      assert Strip(line)[0] == '5';
    }
  }

  /** The last header before `j`: a header line, with none after it below `j`. */
  lemma {:induction false} LastHeaderShape(lines: seq<string>, j: nat)
    requires j <= |lines|
    ensures LastHeaderBefore(lines, j).Some? ==>
      var h := LastHeaderBefore(lines, j).value;
      h < j && IsHeader(lines[h]) && forall k :: h < k < j ==> !IsHeader(lines[k])
    ensures LastHeaderBefore(lines, j).None? ==> forall k :: 0 <= k < j ==> !IsHeader(lines[k])
  {
    if j > 0 && !IsHeader(lines[j - 1]) {
      LastHeaderShape(lines, j - 1);
    }
  }

  /** What `FirstEnd` finds, stated without the scan. */
  lemma {:induction false} FirstEndFound(lines: seq<string>, i: nat)
    requires i <= |lines| && FirstEnd(lines, i).Some?
    ensures var (s, e) := FirstEnd(lines, i).value;
      i <= e && IsHeader(lines[s - 1]) && IsExamples(lines[e]) &&
      (forall k :: s <= k < e ==> !IsHeader(lines[k])) &&
      (forall j, h :: i <= j < e && 0 <= h < j && IsHeader(lines[h]) ==> !IsExamples(lines[j]))
    decreases |lines| - i
  {
    LastHeaderShape(lines, i);
    if !(IsExamples(lines[i]) && LastHeaderBefore(lines, i).Some?) {
      FirstEndFound(lines, i + 1);
    }
  }

  /** When `FirstEnd` finds nothing, no examples line from `i` on follows a header line. */
  lemma {:induction false} FirstEndMissing(lines: seq<string>, i: nat)
    requires i <= |lines| && FirstEnd(lines, i).None?
    ensures forall j, h :: i <= j < |lines| && 0 <= h < j && IsHeader(lines[h]) ==> !IsExamples(lines[j])
    decreases |lines| - i
  {
    if i < |lines| {
      LastHeaderShape(lines, i);
      FirstEndMissing(lines, i + 1);
    }
  }

  /**
   * The block: it starts after a header line and ends at an examples line,
   * with no header line inside it, and its end is the first examples line
   * that follows any header line. The template has no block exactly when no
   * examples line follows a header line.
   */
  lemma BlockShape(lines: seq<string>)
    ensures Block(lines).Some? ==>
      var (s, e) := Block(lines).value;
      1 <= s <= e < |lines| && IsHeader(lines[s - 1]) && IsExamples(lines[e]) &&
      (forall k :: s <= k < e ==> !IsHeader(lines[k])) &&
      (forall j, h :: 0 <= h < j < e && IsHeader(lines[h]) ==> !IsExamples(lines[j]))
    ensures Block(lines).None? <==>
      forall j, h :: 0 <= h < j < |lines| && IsHeader(lines[h]) ==> !IsExamples(lines[j])
  {
    if Block(lines).Some? {
      FirstEndFound(lines, 0);
      var (s, e) := Block(lines).value;
      assert IsHeader(lines[s - 1]) && IsExamples(lines[e]);
    } else {
      FirstEndMissing(lines, 0);
    }
  }

  // ---------------------------------------------------------------------------
  // Parsing one rule line

  /**
   * A stripped line starting "- 大类：" whose remainder splits on "，二级类："
   * into exactly two parts: the two parts, stripped.
   */
  function ParseRule(line: string): Option<(string, string)> {
    var rule := Strip(line);
    if rule == [] || !StartsWith(rule, RULE_PREFIX) then None
    else
      var parts := SplitOn(rule[|RULE_PREFIX|..], SUB_SEP);
      if |parts| == 2 then Some((Strip(parts[0]), Strip(parts[1]))) else None
  }

  /** The rule line the config updater writes for a (大类, 二级类) pair. */
  function RuleLine(main: string, sub: string): string {
    RULE_PREFIX + Strip(main) + SUB_SEP + Strip(sub)
  }

  /**
   * A line written by the config updater parses back to the stripped pair,
   * provided neither category contains the separator "，二级类：".
   */
  lemma RuleLineRoundTrip(main: string, sub: string)
    requires !Contains(main, SUB_SEP) && !Contains(sub, SUB_SEP)
    ensures ParseRule(RuleLine(main, sub)) == Some((Strip(main), Strip(sub)))
  {
    RuleLineStripped(main, sub);
    RuleLineSplits(main, sub);
    StripIdempotent(main);
    StripIdempotent(sub);
  }

  /** After the prefix, a written rule line splits on the separator into its two stripped parts. */
  lemma RuleLineSplits(main: string, sub: string)
    requires !Contains(main, SUB_SEP) && !Contains(sub, SUB_SEP)
    ensures StartsWith(RuleLine(main, sub), RULE_PREFIX)
    ensures SplitOn(RuleLine(main, sub)[|RULE_PREFIX|..], SUB_SEP) == [Strip(main), Strip(sub)]
  {
    var m := Strip(main);
    var s := Strip(sub);
    var line := RuleLine(main, sub);
    StripKeepsAbsence(main, SUB_SEP);
    StripKeepsAbsence(sub, SUB_SEP);
    assert line[|RULE_PREFIX|..] == m + SUB_SEP + s;
    assert Unbordered(SUB_SEP);
    SplitAroundSeparator(m, SUB_SEP, s);
  }

  /** A written rule line has no surrounding blanks. */
  lemma RuleLineStripped(main: string, sub: string)
    ensures Strip(RuleLine(main, sub)) == RuleLine(main, sub)
  {
    var m := Strip(main);
    var s := Strip(sub);
    var line := RuleLine(main, sub);
    StripTrimmed(main);
    StripTrimmed(sub);
    assert line == RULE_PREFIX + (m + SUB_SEP + s);
    assert !IsSpace(line[0]);
    assert !IsSpace(line[|line| - 1]) by {
      if s == [] {
        assert line[|line| - 1] == SUB_SEP[|SUB_SEP| - 1];
      } else {
        assert line[|line| - 1] == s[|s| - 1];
      }
    }
    StripOfTrimmed(line);
  }

  // ---------------------------------------------------------------------------
  // The direct-HTTP classifier's loader

  /** The assignment a rule line makes: its pair under its normalised key, when both parts are non-empty. */
  function Store(line: string): Option<(Key, Entry)> {
    match ParseRule(line)
    case None => None
    case Some((main, sub)) =>
      if main != [] && sub != [] then Some((KeyOf(main, sub), Entry(main, sub, "", "", ""))) else None
  }

  /** The assignments `mapping[key] = (main, sub)` made by `rules`, in order. */
  function RuleStores(rules: seq<string>): Pairs<Key, Entry> {
    FilterMap(rules, Store)
  }

  /** The mapping the rules build. */
  function RulesTable(rules: seq<string>): Table {
    PutAll([], RuleStores(rules))
  }

  /** One more rule line stores its pair, if it has one, into the mapping built so far. */
  lemma RulesTableSnoc(rules: seq<string>, line: string)
    ensures Store(line).Some? ==>
      RulesTable(rules + [line]) == Put(RulesTable(rules), Store(line).value.0, Store(line).value.1)
    ensures Store(line).None? ==> RulesTable(rules + [line]) == RulesTable(rules)
  {
    FilterMapSnoc(rules, line, Store);
    if Store(line).Some? {
      PutAllSnoc([], RuleStores(rules), Store(line).value.0, Store(line).value.1);
    } else {
      assert RuleStores(rules + [line]) == RuleStores(rules);
    }
  }

  /** One rule line of the loader: parse it, and store it when both categories are non-empty. */
  method AddRule(mapping: Table, line: string) returns (mapping': Table)
    ensures Store(line).Some? ==> mapping' == Put(mapping, Store(line).value.0, Store(line).value.1)
    ensures Store(line).None? ==> mapping' == mapping
  {
    mapping' := mapping;
    var rule := Strip(line);
    if rule == [] || !StartsWith(rule, RULE_PREFIX) {
      return;
    }
    var parts := SplitOn(rule[|RULE_PREFIX|..], SUB_SEP);
    if |parts| == 2 {
      var main := Strip(parts[0]);
      var sub := Strip(parts[1]);
      if main == [] || sub == [] {
        return;
      }
      mapping' := Put(mapping, KeyOf(main, sub), Entry(main, sub, "", "", ""));
    }
  }

  /** The parsing loop over the rules block. */
  method BuildTable(rules: seq<string>) returns (mapping: Table)
    ensures mapping == RulesTable(rules)
  {
    mapping := [];
    var i := 0;
    while i < |rules|
      invariant i <= |rules|
      invariant mapping == RulesTable(rules[..i])
    {
      assert rules[..i + 1] == rules[..i] + [rules[i]];
      RulesTableSnoc(rules[..i], rules[i]);
      mapping := AddRule(mapping, rules[i]);
      i := i + 1;
    }
    assert rules[..i] == rules;
  }

  /**
   * `load_classification_standards` of the direct-HTTP classifier: the
   * mapping the rules block builds, which may be empty, or the missing block.
   */
  method LoadRules(template: string) returns (r: Result<Table, BlockError>)
    ensures Block(SplitLines(template)).None? ==> r == Err(NoRulesSection)
    ensures Block(SplitLines(template)).Some? ==>
      var (s, e) := Block(SplitLines(template)).value;
      r == Ok(RulesTable(SplitLines(template)[s..e]))
  {
    var lines := SplitLines(template);
    var block := FindBlock(lines);
    if block.None? {
      return Err(NoRulesSection);
    }
    var mapping := BuildTable(lines[block.value.0..block.value.1]);
    return Ok(mapping);
  }

  /**
   * The loaded mapping is a well-formed taxonomy (possibly empty: an empty
   * block is no error here) holding only pairs of rule lines with both parts
   * non-empty, and among lines with the same key the last one wins.
   */
  lemma RulesTableShape(rules: seq<string>, k: Key)
    ensures WellFormed(RulesTable(rules))
    ensures forall p :: p in RulesTable(rules) ==> exists i :: 0 <= i < |rules| && Store(rules[i]) == Some(p)
    ensures Get(RulesTable(rules), k) == LastValue(RuleStores(rules), k)
    ensures rules == [] ==> RulesTable(rules) == []
  {
    FilterMapExact(rules, Store);
    forall p | p in RuleStores(rules)
      ensures p.0 == KeyOf(p.1.main, p.1.sub) && p.1.main != [] && p.1.sub != []
    {
      var i :| 0 <= i < |rules| && Store(rules[i]) == Some(p);
    }
    PutAllShape([], RuleStores(rules));
    GetPutAll([], RuleStores(rules), k);
  }

  /** Each rule line whose two parts are non-empty is stored under the normalised key of its stripped parts. */
  lemma RuleLinesAreStored(rules: seq<string>, i: nat)
    requires i < |rules| && ParseRule(rules[i]).Some?
    requires ParseRule(rules[i]).value.0 != [] && ParseRule(rules[i]).value.1 != []
    ensures var (main, sub) := ParseRule(rules[i]).value;
      (KeyOf(main, sub), Entry(main, sub, "", "", "")) in RuleStores(rules)
  {
    FilterMapExact(rules, Store);
  }

  // ---------------------------------------------------------------------------
  // The default-file generator

  /** The (大类, 二级类) records of the rule lines, in order; empty parts are kept. */
  function Records(rules: seq<string>): seq<(string, string)> {
    FilterMap(rules, ParseRule)
  }

  /** The record loop of the generator. */
  method CollectRecords(rules: seq<string>) returns (data: seq<(string, string)>)
    ensures data == Records(rules)
  {
    data := [];
    var i := 0;
    while i < |rules|
      invariant i <= |rules|
      invariant data == Records(rules[..i])
    {
      assert rules[..i + 1] == rules[..i] + [rules[i]];
      FilterMapSnoc(rules[..i], rules[i], ParseRule);
      var pair := ParseRule(rules[i]);
      if pair.Some? {
        data := data + [pair.value];
      }
      i := i + 1;
    }
    assert rules[..i] == rules;
  }

  /** `generate_default_classification_file` up to the spreadsheet it writes. */
  method GenerateRecords(template: string) returns (r: Result<seq<(string, string)>, BlockError>)
    ensures Block(SplitLines(template)).None? ==> r == Err(NoRulesSection)
    ensures Block(SplitLines(template)).Some? ==>
      var (s, e) := Block(SplitLines(template)).value;
      r == if Records(SplitLines(template)[s..e]) == [] then Err(NoRulesParsed)
           else Ok(Records(SplitLines(template)[s..e]))
  {
    var lines := SplitLines(template);
    var block := FindBlock(lines);
    if block.None? {
      return Err(NoRulesSection);
    }
    var data := CollectRecords(lines[block.value.0..block.value.1]);
    if data == [] {
      return Err(NoRulesParsed);
    }
    return Ok(data);
  }

  /**
   * The generator and the classifier read the same lines: the classifier
   * stores exactly the records whose two parts are both non-empty, under
   * their normalised key, in the same order.
   */
  lemma {:induction false} StoresAreNonEmptyRecords(rules: seq<string>)
    ensures RuleStores(rules) == FilterMap(Records(rules), StoreRecord)
    decreases |rules|
  {
    if rules != [] {
      var n := |rules| - 1;
      StoresAreNonEmptyRecords(rules[..n]);
      var tail := if ParseRule(rules[n]).Some? then [ParseRule(rules[n]).value] else [];
      FilterMapAppend(Records(rules[..n]), tail, StoreRecord);
      if ParseRule(rules[n]).Some? {
        FilterMapSnoc([], ParseRule(rules[n]).value, StoreRecord);
        assert [] + tail == tail;
      }
    }
  }

  /** The assignment the classifier makes for a record. */
  function StoreRecord(pair: (string, string)): Option<(Key, Entry)> {
    if pair.0 != [] && pair.1 != [] then Some((KeyOf(pair.0, pair.1), Entry(pair.0, pair.1, "", "", ""))) else None
  }
}
