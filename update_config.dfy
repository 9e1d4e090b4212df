/**
 * `update_config_prompt_from_excel`: build one rule line per spreadsheet row
 * with both a 大类 and a 二级类, find the rules section of the configuration
 * text (what the pattern `(5\. 仅使用以下分类标准中的分类：\n)(.*?)(\n\s*示例：)`
 * matches as its second group, with DOTALL), and splice the new lines in.
 * Reading and writing the files is left to the caller.
 */
module ConfigUpdate {
  import opened Wrappers
  import opened Text
  import opened Lists
  import opened RulesBlock

  const MAIN_COLUMN := "大类"
  const SUB_COLUMN := "二级类"
  /** The pattern's first group: the header line with its newline. */
  const SECTION_HEAD := HEADER + "\n"

  /** A spreadsheet cell: empty (NaN), a string, or any other value (a number). */
  datatype Value = Blank | Written(s: string) | Numeric

  /** The sheet as read: column names, and one cell per column in each row. */
  datatype Frame = Frame(columns: seq<string>, rows: seq<seq<Value>>)

  /** Why the update raises. */
  datatype UpdateError =
    | MissingColumn  // "Excel文件缺少必要的列"
    | NotText        // `.strip()` on a non-string cell: AttributeError
    | NoRules        // "Excel文件中没有有效的分类规则"
    | NoSection      // "无法找到PROMPT_TEMPLATE中的分类规则部分"

  /** Every row has one cell per column, as in a DataFrame. */
  predicate Rectangular(f: Frame) {
    forall i :: 0 <= i < |f.rows| ==> |f.rows[i]| == |f.columns|
  }

  /** The position of the first column called `name`, if any. */
  function ColumnOf(columns: seq<string>, name: string): (r: Option<nat>)
    ensures r.Some? ==> r.value < |columns| && columns[r.value] == name
    ensures r.None? <==> name !in columns
  {
    if columns == [] then None
    else if columns[0] == name then Some(0)
    else match ColumnOf(columns[1..], name)
      case None => None
      case Some(i) => Some(i + 1)
  }

  /** The (大类, 二级类) cells of every row. */
  function Cells(f: Frame, mi: nat, si: nat): (r: seq<(Value, Value)>)
    requires Rectangular(f) && mi < |f.columns| && si < |f.columns|
    ensures |r| == |f.rows|
  {
    seq(|f.rows|, i requires 0 <= i < |f.rows| => (f.rows[i][mi], f.rows[i][si]))
  }

  /** A row the loop gets past: skipped for a NaN, or with two strings to strip. */
  predicate Writable(c: (Value, Value)) {
    c.0.Blank? || c.1.Blank? || (c.0.Written? && c.1.Written?)
  }

  /** Every row gets past the loop. */
  predicate AllWritable(cells: seq<(Value, Value)>) {
    forall i :: 0 <= i < |cells| ==> Writable(cells[i])
  }

  /** The rule line of a row with two strings; rows with a NaN have none. */
  function RowRule(c: (Value, Value)): Option<string> {
    if c.0.Written? && c.1.Written? then Some(RuleLine(c.0.s, c.1.s)) else None
  }

  /** The rule lines of the sheet, or why building them raises. */
  function RulesOf(f: Frame): Result<seq<string>, UpdateError>
    requires Rectangular(f)
  {
    var mi := ColumnOf(f.columns, MAIN_COLUMN);
    var si := ColumnOf(f.columns, SUB_COLUMN);
    if mi.None? || si.None? then Err(MissingColumn)
    else
      var cells := Cells(f, mi.value, si.value);
      if !AllWritable(cells) then Err(NotText)
      else if FilterMap(cells, RowRule) == [] then Err(NoRules)
      else Ok(FilterMap(cells, RowRule))
  }

  /** `update_config_prompt_from_excel` up to the rule lines: the column check, then the row loop. */
  method BuildRules(f: Frame) returns (r: Result<seq<string>, UpdateError>)
    requires Rectangular(f)
    ensures r == RulesOf(f)
  {
    var mi := ColumnOf(f.columns, MAIN_COLUMN);
    var si := ColumnOf(f.columns, SUB_COLUMN);
    if mi.None? || si.None? {
      return Err(MissingColumn);
    }
    var cells := Cells(f, mi.value, si.value);
    var rules := CollectRules(cells);
    if rules.None? {
      return Err(NotText);
    }
    if rules.value == [] {
      return Err(NoRules);
    }
    return Ok(rules.value);
  }

  /** The row loop building `classification_rules`: None when a `.strip()` raises. */
  method CollectRules(cells: seq<(Value, Value)>) returns (r: Option<seq<string>>)
    ensures AllWritable(cells) ==> r == Some(FilterMap(cells, RowRule))
    ensures !AllWritable(cells) ==> r == None
  {
    var rules: seq<string> := [];
    var i := 0;
    while i < |cells|
      invariant i <= |cells|
      invariant AllWritable(cells[..i])
      invariant rules == FilterMap(cells[..i], RowRule)
    {
      assert cells[..i + 1] == cells[..i] + [cells[i]];
      FilterMapSnoc(cells[..i], cells[i], RowRule);
      AllWritableSnoc(cells[..i], cells[i]);
      var ok;
      ok, rules := AddRow(rules, cells[i]);
      if !ok {
        AllWritablePrefix(cells, i + 1);
        return None;
      }
      i := i + 1;
    }
    assert cells[..i] == cells;
    return Some(rules);
  }

  /** One row of the loop: skipped for a NaN, else its rule line appended; false when `.strip()` raises. */
  method AddRow(rules: seq<string>, c: (Value, Value)) returns (ok: bool, rules': seq<string>)
    ensures ok == Writable(c)
    ensures ok ==> rules' == rules + if RowRule(c).Some? then [RowRule(c).value] else []
  {
    var (main, sub) := c;
    if main.Blank? || sub.Blank? {
      return true, rules + [];
    }
    if !main.Written? || !sub.Written? {
      return false, rules;
    }
    return true, rules + [RULE_PREFIX + Strip(main.s) + SUB_SEP + Strip(sub.s)];
  }

  lemma AllWritableSnoc(cells: seq<(Value, Value)>, c: (Value, Value))
    ensures AllWritable(cells + [c]) <==> AllWritable(cells) && Writable(c)
  {
    if AllWritable(cells + [c]) {
      assert (cells + [c])[|cells|] == c;
      forall i | 0 <= i < |cells| ensures Writable(cells[i]) {
        assert (cells + [c])[i] == cells[i];
      }
    }
  }

  lemma AllWritablePrefix(cells: seq<(Value, Value)>, n: nat)
    requires n <= |cells| && !AllWritable(cells[..n])
    ensures !AllWritable(cells)
  {
    var i :| 0 <= i < n && !Writable(cells[..n][i]);
    assert cells[..n][i] == cells[i];
  }

  // ---------------------------------------------------------------------------
  // The rules section

  /** `\n\s*示例：` matches at `e`. */
  predicate TerminatorAt(text: string, e: nat) {
    e < |text| && text[e] == '\n' && StartsWith(LStrip(text[e + 1..]), EXAMPLES)
  }

  /** The first position at or after `from` where the terminator matches. */
  function FirstTerminator(text: string, from: nat): (r: Option<nat>)
    requires from <= |text|
    ensures r.Some? ==> from <= r.value < |text| && TerminatorAt(text, r.value)
    decreases |text| - from
  {
    if from == |text| then None
    else if TerminatorAt(text, from) then Some(from)
    else FirstTerminator(text, from + 1)
  }

  /**
   * The bounds of the second group of the leftmost match. A later header
   * cannot help when the first one has no terminator after it, so the match
   * starts at the first header; the lazy group ends at the first terminator
   * after it.
   */
  function Section(text: string): (r: Option<(nat, nat)>)
    ensures r.Some? ==> |SECTION_HEAD| <= r.value.0 <= r.value.1 < |text|
  {
    var p := FindFrom(text, SECTION_HEAD, 0);
    if p == |text| then None
    else
      match FirstTerminator(text, p + |SECTION_HEAD|)
      case None => None
      case Some(e) => Some((p + |SECTION_HEAD|, e))
  }

  /** The configuration text with the section replaced by the rules, one per line. */
  function Spliced(text: string, rules: seq<string>): Result<string, UpdateError> {
    match Section(text)
    case None => Err(NoSection)
    case Some((s, e)) => Ok(text[..s] + Join(rules, "\n") + text[e..])
  }

  /** `update_config_prompt_from_excel` from the sheet and the configuration text to the new text. */
  method UpdateConfig(f: Frame, config: string) returns (r: Result<string, UpdateError>)
    requires Rectangular(f)
    ensures RulesOf(f).Err? ==> r == Err(RulesOf(f).error)
    ensures RulesOf(f).Ok? ==> r == Spliced(config, RulesOf(f).value)
  {
    var rules := BuildRules(f);
    if rules.Err? {
      return Err(rules.error);
    }
    var section := Section(config);
    if section.None? {
      return Err(NoSection);
    }
    var (s, e) := section.value;
    return Ok(config[..s] + Join(rules.value, "\n") + config[e..]);
  }

  // ---------------------------------------------------------------------------
  // Properties

  /** Where the terminator search stops: no terminator between `from` and its result, none at all when it fails. */
  lemma {:induction false} FirstTerminatorShape(text: string, from: nat)
    requires from <= |text|
    ensures FirstTerminator(text, from).Some? ==>
      forall k :: from <= k < FirstTerminator(text, from).value ==> !TerminatorAt(text, k)
    ensures FirstTerminator(text, from).None? ==> forall k :: from <= k ==> !TerminatorAt(text, k)
    decreases |text| - from
  {
    if from < |text| && !TerminatorAt(text, from) {
      FirstTerminatorShape(text, from + 1);
    }
  }

  /** A terminator with none before it from `from` on is the one the search finds. */
  lemma {:induction false} FirstTerminatorIs(text: string, from: nat, e: nat)
    requires from <= e && TerminatorAt(text, e)
    requires forall k :: from <= k < e ==> !TerminatorAt(text, k)
    ensures FirstTerminator(text, from) == Some(e)
    decreases e - from
  {
    if from < e {
      FirstTerminatorIs(text, from + 1, e);
    }
  }

  /**
   * The section is the text between the first header (with its newline)
   * and the first terminator after it, neither included; there is none
   * exactly when no terminator follows the first header.
   */
  lemma SectionShape(text: string)
    ensures Section(text).Some? ==>
      var (s, e) := Section(text).value;
      OccursAt(text, SECTION_HEAD, s - |SECTION_HEAD|) &&
      (forall j :: 0 <= j < s - |SECTION_HEAD| ==> !OccursAt(text, SECTION_HEAD, j)) &&
      TerminatorAt(text, e) && forall k :: s <= k < e ==> !TerminatorAt(text, k)
    ensures Section(text).None? <==>
      forall p, e :: OccursAt(text, SECTION_HEAD, p) && p + |SECTION_HEAD| <= e ==> !TerminatorAt(text, e)
  {
    var p := FindFrom(text, SECTION_HEAD, 0);
    if p < |text| {
      FirstTerminatorShape(text, p + |SECTION_HEAD|);
      if FirstTerminator(text, p + |SECTION_HEAD|).None? {
        forall q, e | OccursAt(text, SECTION_HEAD, q) && q + |SECTION_HEAD| <= e
          ensures !TerminatorAt(text, e)
        {
          assert p <= q;
        }
      }
    }
  }

  /** Splicing keeps everything up to the header's newline and everything from the terminator on. */
  lemma SplicedKeeps(text: string, rules: seq<string>)
    requires Section(text).Some?
    ensures var (s, e) := Section(text).value;
      var n := Spliced(text, rules).value;
      var j := Join(rules, "\n");
      |n| == s + |j| + (|text| - e) &&
      n[..s] == text[..s] && n[s..s + |j|] == j && n[s + |j|..] == text[e..]
  {
    var (s, e) := Section(text).value;
    var j := Join(rules, "\n");
    var n := text[..s] + j + text[e..];
    assert n[..s] == text[..s];
    assert n[s..s + |j|] == j;
    assert n[s + |j|..] == text[e..];
  }

  /** A rules text whose lines all start with `-` and hold no newline. */
  predicate Lines(rules: seq<string>) {
    forall i :: 0 <= i < |rules| ==> rules[i] != [] && rules[i][0] == '-' && '\n' !in rules[i]
  }

  /** In the joined lines every newline is a separator, followed by the next line's `-`. */
  lemma {:induction false} JoinNewlines(rules: seq<string>, q: nat)
    requires Lines(rules)
    requires q < |Join(rules, "\n")| && Join(rules, "\n")[q] == '\n'
    ensures q + 1 < |Join(rules, "\n")| && Join(rules, "\n")[q + 1] == '-'
    decreases |rules|
  {
    var r0 := rules[0];
    if |rules| == 1 {
      assert false;
    } else {
      var rest := Join(rules[1..], "\n");
      assert Join(rules, "\n") == r0 + "\n" + rest;
      if q < |r0| {
        assert false;
      } else if q == |r0| {
        assert rules[1..][0] == rules[1];
        assert Join(rules[1..], "\n")[0] == '-' by {
          if |rules[1..]| == 1 {
          } else {
            assert Join(rules[1..], "\n") == rules[1] + "\n" + Join(rules[2..], "\n");
          }
        }
      } else {
        assert rest[q - |r0| - 1] == '\n';
        JoinNewlines(rules[1..], q - |r0| - 1);
      }
    }
  }

  /** The terminator test looks only at the text from its position on. */
  lemma TerminatorShift(a: string, i: nat, b: string, k: nat)
    requires i <= |a| && k <= |b| && a[i..] == b[k..]
    ensures TerminatorAt(a, i) <==> TerminatorAt(b, k)
  {
    if i < |a| {
      assert a[i] == a[i..][0] == b[k..][0] == b[k];
      assert a[i + 1..] == a[i..][1..] == b[k..][1..] == b[k + 1..];
    }
  }

  /** No terminator inside the spliced lines: each newline there is followed by `-`. */
  lemma NoTerminatorInside(n: string, s: nat, rules: seq<string>, k: nat)
    requires Lines(rules)
    requires s + |Join(rules, "\n")| <= |n| && n[s..s + |Join(rules, "\n")|] == Join(rules, "\n")
    requires s <= k < s + |Join(rules, "\n")|
    ensures !TerminatorAt(n, k)
  {
    var j := Join(rules, "\n");
    assert n[k] == j[k - s];
    if n[k] == '\n' {
      JoinNewlines(rules, k - s);
      assert n[k + 1] == j[k - s + 1] == '-';
      LStripOfTrimmed(n[k + 1..]);
      assert n[k + 1..][0] == '-';
    }
  }

  /** A text that agrees with `text` up to just after its first header has that header first too. */
  lemma HeadStaysFirst(text: string, n: string, p: nat)
    requires p < |text| && FindFrom(text, SECTION_HEAD, 0) == p
    requires p + |SECTION_HEAD| <= |n| && n[..p + |SECTION_HEAD|] == text[..p + |SECTION_HEAD|]
    ensures FindFrom(n, SECTION_HEAD, 0) == p
  {
    var s := p + |SECTION_HEAD|;
    assert OccursAt(n, SECTION_HEAD, p) by {
      assert n[p..s] == n[..s][p..s] == text[..s][p..s] == text[p..s];
    }
    forall q | 0 <= q < p
      ensures !OccursAt(n, SECTION_HEAD, q)
    {
      assert n[q..q + |SECTION_HEAD|] == n[..s][q..q + |SECTION_HEAD|] == text[..s][q..q + |SECTION_HEAD|];
      assert !OccursAt(text, SECTION_HEAD, q);
    }
  }

  /** Rule lines followed by what follows a terminator: the first terminator from the lines on is after them. */
  lemma TerminatorAfterLines(n: string, s: nat, rules: seq<string>, text: string, e: nat)
    requires Lines(rules) && e <= |text| && TerminatorAt(text, e)
    requires s + |Join(rules, "\n")| <= |n| && n[s..s + |Join(rules, "\n")|] == Join(rules, "\n")
    requires n[s + |Join(rules, "\n")|..] == text[e..]
    ensures FirstTerminator(n, s) == Some(s + |Join(rules, "\n")|)
  {
    var j := Join(rules, "\n");
    TerminatorShift(n, s + |j|, text, e);
    forall k | s <= k < s + |j|
      ensures !TerminatorAt(n, k)
    {
      NoTerminatorInside(n, s, rules, k);
    }
    FirstTerminatorIs(n, s, s + |j|);
  }

  /**
   * Reading the section of the updated text gives exactly the new lines,
   * when they are rule lines: the header still comes first and the first
   * terminator after it is the old one.
   */
  lemma SplicedReread(text: string, rules: seq<string>)
    requires Section(text).Some? && Lines(rules)
    ensures var s := Section(text).value.0;
      Section(Spliced(text, rules).value) == Some((s, s + |Join(rules, "\n")|))
  {
    var (s, e) := Section(text).value;
    var n := Spliced(text, rules).value;
    assert FindFrom(text, SECTION_HEAD, 0) == s - |SECTION_HEAD|;
    SplicedKeeps(text, rules);
    HeadStaysFirst(text, n, s - |SECTION_HEAD|);
    TerminatorAfterLines(n, s, rules, text, e);
  }

  /** Updating a second time with the same rules changes nothing. */
  lemma SplicedIdempotent(text: string, rules: seq<string>)
    requires Section(text).Some? && Lines(rules)
    ensures Spliced(Spliced(text, rules).value, rules) == Spliced(text, rules)
  {
    var s := Section(text).value.0;
    var j := Join(rules, "\n");
    var n := Spliced(text, rules).value;
    SplicedReread(text, rules);
    SplicedKeeps(text, rules);
    assert n[..s] + j + n[s + |j|..] == n by {
      assert n == n[..s] + n[s..s + |j|] + n[s + |j|..];
    }
  }

  // ---------------------------------------------------------------------------
  // The written lines read back

  /** The stripped pair of a row with two strings. */
  function RowPair(c: (Value, Value)): Option<(string, string)> {
    if c.0.Written? && c.1.Written? then Some((Strip(c.0.s), Strip(c.1.s))) else None
  }

  /**
   * The default-file generator reads back exactly the stripped pairs the
   * updater wrote, in row order, when no cell holds the separator "，二级类：".
   */
  lemma WrittenRulesReadBack(cells: seq<(Value, Value)>)
    requires forall i :: 0 <= i < |cells| && cells[i].0.Written? ==> !Contains(cells[i].0.s, SUB_SEP)
    requires forall i :: 0 <= i < |cells| && cells[i].1.Written? ==> !Contains(cells[i].1.s, SUB_SEP)
    ensures Records(FilterMap(cells, RowRule)) == FilterMap(cells, RowPair)
  {
    forall i | 0 <= i < |cells|
      ensures RowPair(cells[i]) == if RowRule(cells[i]).Some? then ParseRule(RowRule(cells[i]).value) else None
    {
      if RowRule(cells[i]).Some? {
        RuleLineRoundTrip(cells[i].0.s, cells[i].1.s);
      }
    }
    FilterMapThen(cells, RowRule, ParseRule, RowPair);
  }

  /** The written lines are rule lines when no cell holds a newline, so the section reads back as written. */
  lemma WrittenLinesAreLines(cells: seq<(Value, Value)>)
    requires forall i :: 0 <= i < |cells| && cells[i].0.Written? ==> '\n' !in cells[i].0.s
    requires forall i :: 0 <= i < |cells| && cells[i].1.Written? ==> '\n' !in cells[i].1.s
    ensures Lines(FilterMap(cells, RowRule))
  {
    var rules := FilterMap(cells, RowRule);
    FilterMapExact(cells, RowRule);
    forall k | 0 <= k < |rules|
      ensures rules[k] != [] && rules[k][0] == '-' && '\n' !in rules[k]
    {
      assert rules[k] in rules;
      var i :| 0 <= i < |cells| && RowRule(cells[i]) == Some(rules[k]);
      RuleLineIsLine(cells[i].0.s, cells[i].1.s);
    }
  }

  /** A rule line starts with `-`, and holds a newline only if one of its categories does. */
  lemma RuleLineIsLine(main: string, sub: string)
    requires '\n' !in main && '\n' !in sub
    ensures var l := RuleLine(main, sub);
      l != [] && l[0] == '-' && '\n' !in l
  {
    StripKeepsOut(main, '\n');
    StripKeepsOut(sub, '\n');
  }

  /** Stripping adds no character. */
  lemma StripKeepsOut(s: string, c: char)
    requires c !in s
    ensures c !in Strip(s)
  {
    StripTrimmed(s);
    var a := |s| - |LStrip(s)|;
    forall i | 0 <= i < |Strip(s)|
      ensures Strip(s)[i] != c
    {
      assert Strip(s)[i] == s[a + i];
    }
  }
}
