# Material classifier, modelled in Dafny

The modelled system assigns a material record to a (main category, sub-category) pair
of a closed taxonomy. A record is one spreadsheet row: name, drawing/model, brand,
supplier, material. The repository holds four near-duplicate copies of the engine:
the web copy, the LangChain copy, the direct-HTTP copy under `claude/`, and the
command-line tools under `material_classifier/`. They differ in small ways, and each
copy is modelled with its own behaviour.

Every copy does the same things:
- It loads the taxonomy, keyed by a normalised (main, sub) pair, from spreadsheet rows
  or from the rules block of a prompt text.
- It tries a local keyword matcher.
- Otherwise it asks an LLM. It extracts a JSON object from the reply and retries with
  exponential back-off, and two copies also keep a per-instance count of consecutive
  failures that stops at 5. The LangChain copy resets that count as soon as its output
  parser returns, so a parse that is not an object leaves the count at 1.
- It validates the answer against the taxonomy and rewrites it to the stored spelling.
- It classifies batches with a rate-limit pause between items.

Around the classifiers sit the material managers (required fields, readers, result
rows), an evaluator (label normalisation, metrics and confusion counts), and two
scripts that write the taxonomy into, and read it back out of, the prompt's rules block.

The modules follow that structure:

- `Text`, `Keywords`: whitespace, `strip`, `lower`, splitting, and the two normalisations.
- `FirstMatcher` (first-match matcher), `WebMatcher` (the web matcher with brand tie-break).
- `Taxonomy` (row loader), `RulesBlock` (rules-block loader, default-file generator).
- `Prompt` (system and user prompts), `Extraction` (reply parsing), `Retry` (the retry loops).
- `Validation`, `Results`, `Batch`.
- `WebClassifier`, `LangchainClassifier`, `ClaudeClassifier`: one class per classifier. The
  instance's request count, failure counter and sleeps are fields that its methods update.
- `Manager`, `ClaudeManager`, `Process2025`, `Evaluation`, `ConfigUpdate`.
- `Wrappers`, `Assoc` (insertion-ordered dictionaries as association lists), `Lists`,
  `Json`, `Material`.

The network, `json.loads`, the LangChain output parser and bytes decoding are
parameters of the model. The network is an oracle indexed by the number of requests
made so far. Sleeps are recorded as a trace of back-off and rate-limit pauses.

## Model

| member | source | states |
|---|---|---|
| Text.MatchNormShape | code/material_classifier_web/keyword_matcher.py:21-33 | the matcher's normalisation maps "" to "" and otherwise yields a lower-cased, trimmed text with no space, tab or newline left |
| Text.MatchNormIdempotent | code/material_classifier_web/keyword_matcher.py:21-33 | normalising an already normalised text changes nothing |
| Text.KeyNormShape | code/material_classifier_web/material_classifier.py:128-129 | a taxonomy key is trimmed, lower-case and has no space or tab |
| Text.KeyNormIdempotent | code/material_classifier_web/material_classifier.py:439-442 | normalising a stored key again gives the same key, so a category read back from the taxonomy is found under its own key |
| Text.ItemsTrimmed | code/material_classifier_web/keyword_matcher.py:62 | every keyword of a split cell is non-empty and has no whitespace at either end |
| Text.PiecesHaveNoSeparator | code/material_classifier_web/keyword_matcher.py:62 | no piece of `re.split(r'[、,，]', s)` contains one of the three separators |
| Text.PiecesReassemble | code/material_classifier_web/keyword_matcher.py:62 | the pieces put back together are the cell without its separators, and there is one piece more than there are separators |
| Text.SplitAroundSeparator | code/claude/material_classifier.py:81 | `(a + sep + b).split(sep)` is `[a, b]` when neither side contains the separator |
| Keywords.HitWordsExact | code/material_classifier/keyword_matcher.py:67-74 | a keyword hits exactly when it is listed, its normal form is non-empty and that form occurs in the normalised name |
| Keywords.HitWordsStep | code/material_classifier_web/keyword_matcher.py:67-74 | scanning one more keyword adds one hit exactly when that keyword hits |
| Keywords.NoHitsInEmpty | code/material_classifier/keyword_matcher.py:49-51 | nothing hits an empty normalised name |
| Keywords.SeparatorCellHasNoItems | code/material_classifier_web/keyword_matcher.py:57-64 | a keyword cell made only of separators and whitespace lists no keyword, so its entry never matches |
| FirstMatcher.KeywordTriples | code/material_classifier/keyword_matcher.py:67-74 | the inner loop collects one (main, sub, keyword) triple per hitting keyword, in list order |
| FirstMatcher.TagAt | code/material_classifier/keyword_matcher.py:74 | the k-th triple of an entry names that entry and its k-th hitting keyword |
| FirstMatcher.MatchKeywords | code/material_classifier/keyword_matcher.py:35-81 | both loops collect exactly the triples of `Candidates`, and the result is the pair of the first one, None when there is none |
| FirstMatcher.TaggedLinesUp | code/material_classifier/keyword_matcher.py:56-74 | the collected triples and the web matcher's candidates correspond one for one, with the same (main, sub) at each position |
| FirstMatcher.FirstMatchIsWebHead | code/material_classifier/keyword_matcher.py:76-81 | `match_keywords` returns the pair of the first candidate the web matcher lists for the same name, and None exactly when it lists none |
| FirstMatcher.MatchByMultipleFields | code/material_classifier/keyword_matcher.py:83-118 | the early-return chain returns the first match among name, drawing/model, category/brand and material |
| FirstMatcher.FirstFieldsIsWebHead | code/material_classifier/keyword_matcher.py:83-118 | the field search returns the pair of the web matcher's first multi-field candidate, None exactly when there is none |
| FirstMatcher.BrandlessPicksAgree | code/material_classifier_web/keyword_matcher.py:153-158 | when the material's brand normalises to "", the web matcher's brand tie-break and the first-match matcher choose the same category |
| FirstMatcher.FirstFieldsFromTable | code/material_classifier/keyword_matcher.py:56-79 | the pair found is the original (main, sub) of a taxonomy entry |
| FirstMatcher.DedupHead | code/material_classifier_web/keyword_matcher.py:95-98 | de-duplication keeps the first match in front |
| WebMatcher.KeywordHits | code/material_classifier_web/keyword_matcher.py:67-74 | the inner loop appends the entry's candidate once per hitting keyword |
| WebMatcher.MatchKeywords | code/material_classifier_web/keyword_matcher.py:35-77 | both loops return exactly the candidates of `Candidates`: per entry in taxonomy order, one per hitting keyword |
| WebMatcher.MatchesExact | code/material_classifier_web/keyword_matcher.py:56-77 | an entry's candidate is returned if and only if one of its listed keywords hits the normalised name |
| WebMatcher.EmptyNameMatchesNothing | code/material_classifier_web/keyword_matcher.py:45-51 | a name that normalises to "" matches nothing |
| WebMatcher.AppendUnseen | code/material_classifier_web/keyword_matcher.py:95-98 | the loop keeps each match whose (main, sub) was not seen before, in first-seen order, and the seen set is every pair of the input |
| WebMatcher.MatchByMultipleFields | code/material_classifier_web/keyword_matcher.py:79-128 | returns the de-duplicated matches of the first of name, drawing/model (or model), category/brand (or brand) and material that has any |
| WebMatcher.DedupEmpty | code/material_classifier_web/keyword_matcher.py:95-101 | de-duplication empties only an empty list, so a later field is tried only when no earlier one matched |
| WebMatcher.DedupKeepsPairs | code/material_classifier_web/keyword_matcher.py:95-98 | de-duplication keeps the set of pairs and adds nothing |
| WebMatcher.DedupDistinct | code/material_classifier_web/keyword_matcher.py:90-98 | the returned candidates have pairwise distinct (main, sub) pairs |
| WebMatcher.SupplierIgnored | code/material_classifier_web/keyword_matcher.py:79-128 | changing the supplier never changes the matches |
| WebMatcher.MultiFieldFromTable | code/material_classifier_web/keyword_matcher.py:79-128 | every candidate is the candidate of a taxonomy entry |
| WebMatcher.AnyAgreesExists | code/material_classifier_web/keyword_matcher.py:173-181 | a candidate's brands agree with the material's brand exactly when some listed brand, normalised and non-empty, contains it or is contained in it |
| WebMatcher.AnyBrandAgrees | code/material_classifier_web/keyword_matcher.py:173-181 | the inner loop with its `break` decides whether some listed brand agrees with the material's normalised 分类/品牌 brand: the brand's own normalisation is non-empty and either one contains the other; the material name plays no part |
| WebMatcher.MatchByKeywordsAndBrand | code/material_classifier_web/keyword_matcher.py:130-188 | the method computes the pick of the pure selection function |
| WebMatcher.NoBrandMatches | code/material_classifier_web/keyword_matcher.py:161-183 | there is no brand match exactly when no candidate agrees |
| WebMatcher.FirstBrandMatch | code/material_classifier_web/keyword_matcher.py:183-185 | the first brand match is the pair of the first candidate that agrees |
| WebMatcher.BrandMatchesFromCandidates | code/material_classifier_web/keyword_matcher.py:161-181 | every brand match is the pair of a keyword candidate |
| WebMatcher.PickIsCandidate | code/material_classifier_web/keyword_matcher.py:140-158 | the pick is None exactly when no field matched, the sole candidate when there is one, the first one when the material has no brand, and always one of the candidates |
| WebMatcher.PickByBrand | code/material_classifier_web/keyword_matcher.py:160-185 | with several candidates and a brand, the pick is the first candidate whose brands agree |
| WebMatcher.PickWithoutBrandMatch | code/material_classifier_web/keyword_matcher.py:186-188 | with several candidates and no agreement, the pick is the first candidate |
| WebMatcher.PickFromTable | code/material_classifier_web/keyword_matcher.py:130-188 | the chosen pair is the original (main, sub) of a taxonomy entry |
| Material.OtherFieldsKept | code/material_classifier_web/keyword_matcher.py:79-128 | setting a column the matcher does not read leaves every field it reads unchanged |
| Taxonomy.CellNeverNan | code/material_classifier_web/material_classifier.py:108-119 | a cell is read stripped, and an empty cell (the text "nan") reads as "", never as "nan" |
| Taxonomy.LoadStandards | code/material_classifier_web/material_classifier.py:78-150 | the loader fails when a row lacks a column it reads and when no rule was stored; otherwise it returns the mapping the rows build, which is well formed and not empty |
| Taxonomy.LoadRow | code/material_classifier_web/material_classifier.py:100-138 | one pass of the row loop carries the current main category forward and stores the row's entry under its detail code |
| Taxonomy.RowStep | code/material_classifier_web/material_classifier.py:121-138 | a non-empty main cell becomes the current main category, and a row with a current main and a sub category stores its five fields under the normalised pair |
| Taxonomy.StoresWellKeyed | code/material_classifier_web/material_classifier.py:126-132 | every stored entry sits under the normalisation of its own non-empty main and sub category |
| Taxonomy.RowKeyed | code/material_classifier_web/material_classifier.py:126-132 | a row that stores an entry stores it under the key of its non-empty categories |
| Taxonomy.LoadedWellFormed | code/material_classifier_web/material_classifier.py:85-142 | the mapping has distinct keys, each the normalisation of its entry's non-empty original spelling, and holds only stored assignments |
| Taxonomy.LastRowWins | code/material_classifier_web/material_classifier.py:132 | among rows with the same normalised pair, the mapping holds the entry of the last one |
| Taxonomy.StoresGrow | code/material_classifier_web/material_classifier.py:100-138 | the assignments of a row are made after those of the rows before it |
| Taxonomy.RowsAreStored | code/material_classifier_web/material_classifier.py:126-138 | every row with a current main category and a sub category stores its own key and entry |
| Taxonomy.OnlyRowsAreStored | code/material_classifier_web/material_classifier.py:126-138 | nothing is stored but the key and entry of such a row |
| Validation.Validate | code/material_classifier_web/material_classifier.py:415-481 | returns True and leaves the result rewritten to its validated form when it is accepted, and returns the refusal with the result unchanged otherwise |
| Validation.CheckedRefuses | code/material_classifier_web/material_classifier.py:429-466 | a result is refused as incomplete exactly when a category is missing or falsy, and as non-standard exactly when both are present but their normalised pair is not a taxonomy key |
| Validation.CheckedCanonical | code/material_classifier_web/material_classifier.py:468-473 | an accepted result now holds the original spelling of the entry its normalised pair names, and every other key and value is unchanged |
| Validation.CheckedIdempotent | code/material_classifier_web/material_classifier.py:415-477 | validating a validated result accepts it again and changes nothing |
| Validation.AnySpellingAccepted | code/material_classifier_web/material_classifier.py:437-473 | any spelling of a stored pair that normalises to its key is accepted and rewritten to the stored original |
| Results.LocalResultFields | code/material_classifier_web/material_classifier.py:387-389 | a local match gives a result with the two categories and the source "keyword_matcher" |
| Results.LocalMatchValidates | code/material_classifier_web/material_classifier.py:387-395 | a pair taken from a taxonomy entry validates, and validation leaves the local result exactly as built |
| Results.LocalPickIsStandard | code/material_classifier_langchain/material_classifier.py:280-290 | whichever local matcher found it, a pair that some taxonomy entry holds is returned as a standard classification tagged "keyword_matcher"; both keyword-first classifiers rely on it |
| Results.AnsweredIsStandard | code/material_classifier_web/material_classifier.py:403-409 | an accepted API answer names a taxonomy entry in its original spelling and keeps the source tag the API call put on it |
| Results.CountedTagged | code/material_classifier_web/material_classifier.py:329-332 | when every successful request is tagged "deepseek_api", so is a successful outcome of the retry loop |
| Results.LateCountedTagged | code/material_classifier_langchain/material_classifier.py:224-227 | the same for the LangChain retry loop: a successful outcome carries the tag every successful request carries |
| Retry.CountedStops | code/material_classifier_web/material_classifier.py:327-350 | an attempt that succeeds, or fails with the consecutive-failure counter reaching 5, or is the last of MAX_RETRIES, ends the call with that attempt's outcome and no sleep; success resets the counter |
| Retry.CountedBacksOff | code/material_classifier_web/material_classifier.py:339-348 | any other failed attempt adds one to the counter, sleeps 2^attempt seconds and goes on to the next attempt |
| Retry.CountedPosts | code/material_classifier_web/material_classifier.py:243-350 | a call makes between 1 and MAX_RETRIES requests; every request but the last failed, and the call's outcome is the last request's (its object on success, its error re-raised otherwise) |
| Retry.CountedFailures | code/material_classifier_web/material_classifier.py:326-350 | in the web loop success leaves the failure counter at 0; a failed call adds one to it per request made, and stopped because the counter reached 5 or because every attempt was used |
| Retry.CountedBackoff | code/material_classifier_web/material_classifier.py:347-348 | between consecutive requests of a call there is exactly one back-off, the i-th lasting 2^(attempt+i) seconds, and none after the last request |
| Retry.CountedAtCeiling | code/material_classifier_web/material_classifier.py:339-345 | an instance already at four consecutive failures makes a single request and never sleeps |
| Retry.CountedLikePlain | code/material_classifier_web/material_classifier.py:339-350 | while the counter cannot reach 5 within the remaining attempts, the counted loop makes the same requests, sleeps and outcome as the loop without a counter |
| Retry.LateStops | code/material_classifier_langchain/material_classifier.py:218-245 | in the LangChain loop an attempt that succeeds, or fails with the counter reaching 5, or is the last, ends the call with that attempt's outcome and no sleep; success leaves the counter at 0, and a parse that is not an object leaves it at 1, because the reset at line 222 ran before adding the source tag raised |
| Retry.LateBacksOff | code/material_classifier_langchain/material_classifier.py:233-243 | any other failed LangChain attempt sets the counter to one more than it was (to 1 after a non-object parse), sleeps 2^attempt seconds and goes on |
| Retry.LateCountedPosts | code/material_classifier_langchain/material_classifier.py:206-245 | a LangChain call makes between 1 and MAX_RETRIES requests; every request but the last failed, and the call's outcome is the last request's |
| Retry.LateCountedFailures | code/material_classifier_langchain/material_classifier.py:218-239 | success leaves the LangChain counter at 0; a failed call leaves it between 1 and the old count plus the requests made, exactly 1 when the last failure was a non-object parse, and stopped because the counter reached 5 or because every attempt was used |
| Retry.LateCountedBackoff | code/material_classifier_langchain/material_classifier.py:241-243 | between consecutive requests of a LangChain call there is exactly one back-off, the i-th lasting 2^(attempt+i) seconds |
| Retry.LateLikeCounted | code/material_classifier_langchain/material_classifier.py:218-245 | when no request of the call parses to a non-object, the LangChain loop gives the same outcome, requests, counter and sleeps as the web loop |
| Retry.LateRetriesAfterNonObject | code/material_classifier_langchain/material_classifier.py:218-243 | where the loops part: at four failures, a non-object parse followed by a good reply makes the web loop give up with the counter at 5 after one request, while the LangChain loop, its counter back at 1, backs off once and returns the second reply |
| Retry.PlainStops | code/claude/material_classifier.py:156-199 | in the direct-HTTP loop an attempt that succeeds, or is the last, decides the call without a sleep |
| Retry.PlainBacksOff | code/claude/material_classifier.py:201-220 | any other failed attempt, whatever the exception kind, sleeps 2^attempt seconds and goes on |
| Retry.PlainExhausts | code/claude/material_classifier.py:156-220 | without a counter a call stops only on success or after all MAX_RETRIES requests, the outcome is the last request's, and the back-offs are 2^(attempt+i) seconds between requests |
| Batch.AfterOneMore | code/material_classifier_web/material_classifier.py:494-509 | one more turn of the batch loop appends the material's success or failure record and its sleeps, then a rate-limit pause unless it was the last material |
| Batch.RunRecords | code/material_classifier_web/material_classifier.py:493-511 | the batch returns one record per material in input order, each the success or failure of classifying that material in the state the materials before it left |
| Batch.RunState | code/material_classifier_langchain/material_classifier.py:385-403 | the instance's state after a batch (the failure counter) is the state the last material left |
| Batch.RunRateLimits | code/material_classifier_web/material_classifier.py:508-509 | a batch of n materials pauses for the rate limit exactly n-1 times, none for an empty batch |
| Batch.RunShape | code/claude/material_classifier.py:319-347 | for any classifier whose own sleeps are never rate-limit pauses, a batch yields one record per material, each keeping its material, in input order, and pauses for the rate limit n-1 times; each classifier's `ClassifyBatch` applies it |
| Batch.BackoffsOnly | code/material_classifier_web/material_classifier.py:347-348 | the retry loop's back-off sleeps are never rate-limit pauses, so they do not disturb that count |
| Extraction.IndexOf | code/material_classifier_web/material_classifier.py:295 | the index found holds the character searched for and lies at or after the start |
| Extraction.IndexOfFirst | code/material_classifier_web/material_classifier.py:295 | no earlier index holds the character: the non-greedy match stops at the first closing bracket |
| Extraction.TaggedKeeps | code/material_classifier_web/material_classifier.py:330 | tagging sets `classification_source` to `deepseek_api` and leaves every other key as it was |
| Extraction.WebAttemptShape | code/material_classifier_web/material_classifier.py:259-332 | a successful attempt returns the accepted object, which holds both category keys, with only its source tagged; empty content fails before any parsing |
| Extraction.ParserAttemptShape | code/material_classifier_langchain/material_classifier.py:216-227 | a LangChain attempt succeeds exactly when the reply is text whose parse is an object, and then returns that object with its source tagged and nothing else changed |
| Extraction.WholeTextFirst | code/material_classifier_web/material_classifier.py:273-275 | a reply that parses as JSON whole is used as is by both the web and the direct-HTTP parse |
| Extraction.SpansAreFlat | code/material_classifier_web/material_classifier.py:295 | every span found starts with the opening bracket, ends at the first closing bracket after it, and occurs in the text |
| Extraction.NoOpenNoSpans | code/material_classifier_web/material_classifier.py:301-305 | a text without the opening bracket yields no span |
| Extraction.SpansConcat | code/material_classifier_web/material_classifier.py:295 | the span search over a fully consumed prefix does not reach into the text after it |
| Extraction.FlatIsClosed | code/material_classifier_web/material_classifier.py:295 | a single bracketed span with no inner closing bracket is found whole |
| Extraction.LastObjectWins | code/material_classifier_web/material_classifier.py:294-298 | with reasoning text before the answer object and no `{` after it, the answer object is what is parsed |
| Extraction.ArrayFallback | code/material_classifier_web/material_classifier.py:299-305 | without any `{` the last `[...]` span is parsed, and without either bracket the cleaned text itself |
| Extraction.NoFenceOnlyStripped | code/material_classifier_web/material_classifier.py:278-281 | a text that does not both start and end with a fence is only stripped |
| Extraction.FencedJsonCleaned | code/material_classifier_web/material_classifier.py:281-289 | a reply fenced as a ```json block is cleaned to its body |
| Extraction.FencedCleaned | code/claude/material_classifier.py:181-183 | a bare ``` fence around a body not starting with `json` is cleaned to the body |
| Extraction.FencedReplyParsed | code/claude/material_classifier.py:173-197 | a fenced reply whose whole text is not JSON is decided by the parse of its body, with both category keys required |
| Prompt.BuildRules | code/material_classifier_web/material_classifier.py:160-175 | the rules part of the prompt built by the two loops is the rule text of the taxonomy: the lines of the entries grouped by original main category |
| Prompt.GroupEntries | code/material_classifier_web/material_classifier.py:160-164 | the grouping loop builds the `categories` dictionary the grouping function defines |
| Prompt.AddToGroupSteps | code/material_classifier_web/material_classifier.py:162-164 | creating an empty list for a new main category and then appending the entry is one add-to-group step |
| Prompt.AppendLines | code/material_classifier_web/material_classifier.py:167-175 | the inner loop appends the lines of one group's entries, in order, to what was built before |
| Prompt.BuildComprehensivePrompt | code/material_classifier_web/material_classifier.py:152-180 | the web classifier's system prompt is the base template, then the rule lines with keywords, explanation and common brands, then the examples |
| Prompt.GroupByMain | code/material_classifier_web/material_classifier.py:160-164 | the grouping has one group per main category, in order of first appearance, each holding that category's entries in taxonomy order |
| Prompt.OneLinePerEntry | code/material_classifier_web/material_classifier.py:160-175 | the grouped entries are a permutation of the taxonomy's entries: grouping loses and repeats none, so there is one rule line per entry |
| Prompt.RulesGrouped | code/material_classifier_langchain/material_classifier.py:162-176 | the rules list every entry of the first main category in taxonomy order, then every entry of the next one to appear, and so on |
| Prompt.LinesAppend | code/material_classifier_web/material_classifier.py:175 | the lines of two runs of entries are the lines of each, concatenated |
| Prompt.Assignments | code/material_classifier_web/material_classifier.py:377-380 | there are never more `key=value` assignments than fields |
| Prompt.DescriptionEmpty | code/material_classifier_web/material_classifier.py:376-380 | the material description is empty exactly when every formatted field is empty |
| Prompt.AssignmentsListed | code/material_classifier_web/material_classifier.py:377-380 | every non-empty field appears in the description as `key=value` |
| Prompt.DrawingModelWins | code/material_classifier_web/material_classifier.py:369 | a present 图号/型号 column is the model, whatever the 型号 column holds, even when it is empty |
| Prompt.UserPromptDetermines | code/material_classifier_web/material_classifier.py:216-226 | the user prompt determines the material description: different descriptions never give the same prompt |
| Prompt.BuildParserPrompt | code/material_classifier_langchain/material_classifier.py:157-190 | the LangChain prompt is the base template, the rule lines with keywords and notes, the examples, a blank line, the request with the description, and the output parser's format instructions |
| Prompt.ParserPromptDetermines | code/material_classifier_langchain/material_classifier.py:180 | with the same template, rules, examples and format instructions, the filled-in LangChain prompt determines the material description |
| RulesBlock.LastHeaderBefore | code/claude/material_classifier.py:60-63 | the last header line before a given line lies before it |
| RulesBlock.FirstEnd | code/claude/material_classifier.py:60-66 | the block bounds found from a line on lie inside the template, the start after line 0 and not past the end |
| RulesBlock.Block | code/claude/material_classifier.py:56-69 | the rules block's start and end lie inside the template's lines, start no later than end |
| RulesBlock.FindBlock | code/claude/material_classifier.py:56-66 | the scanning loop, where a header line (re)sets the start and an examples line after a start stops it, finds the block |
| RulesBlock.NotBoth | code/claude/material_classifier.py:62-64 | no line is both the header and an examples line |
| RulesBlock.LastHeaderShape | code/claude/material_classifier.py:60-63 | the last header before a line is a header line with no header between it and that line; when there is none, no line before is a header |
| RulesBlock.FirstEndFound | code/claude/material_classifier.py:60-66 | what the scan finds from a line on: a start after a header line, an end at an examples line, no header inside, and no earlier examples line that follows a header |
| RulesBlock.FirstEndMissing | code/claude/material_classifier.py:60-69 | when the scan finds nothing, no examples line follows a header line |
| RulesBlock.BlockShape | code/claude/generate_classification_file.py:21-38 | the block starts after a header line, ends at the first examples line that follows any header, with no header inside; the template has no block exactly when no examples line follows a header |
| RulesBlock.RuleLineRoundTrip | code/claude/update_config_from_excel.py:33 | a rule line written by the config updater parses back, in the loaders' parse, to the stripped pair, provided neither category contains "，二级类：" |
| RulesBlock.RuleLineSplits | code/claude/material_classifier.py:81 | after the prefix a written rule line splits on the separator into exactly its two stripped parts |
| RulesBlock.RuleLineStripped | code/claude/update_config_from_excel.py:33 | a written rule line has no surrounding blanks |
| RulesBlock.RulesTableSnoc | code/claude/material_classifier.py:75-94 | one more rule line stores its pair under its normalised key if both parts are non-empty, and otherwise changes nothing |
| RulesBlock.AddRule | code/claude/material_classifier.py:76-94 | one turn of the parsing loop: a line that parses into two non-empty parts is stored under the normalised key, any other line is skipped |
| RulesBlock.BuildTable | code/claude/material_classifier.py:75-94 | the parsing loop builds the mapping of the block's rule lines |
| RulesBlock.LoadRules | code/claude/material_classifier.py:40-97 | the direct-HTTP classifier's loader fails with "no rules section" when the template has no block, and otherwise returns the mapping built from the block's lines, which may be empty |
| RulesBlock.RulesTableShape | code/claude/material_classifier.py:86-94 | the loaded mapping is a well-formed taxonomy holding only pairs of rule lines with both parts non-empty; among lines with the same key the last one wins; no lines give an empty mapping |
| RulesBlock.RuleLinesAreStored | code/claude/material_classifier.py:81-94 | each rule line with two non-empty parts is stored under the normalised key of its stripped parts |
| RulesBlock.CollectRecords | code/claude/generate_classification_file.py:44-59 | the generator's record loop collects the parsed pair of every rule line, empty parts included, in order |
| RulesBlock.GenerateRecords | code/claude/generate_classification_file.py:17-62 | the generator fails when the template has no block or when the block yields no record, and otherwise returns the block's records |
| RulesBlock.StoresAreNonEmptyRecords | code/claude/generate_classification_file.py:46-59 | the generator and the classifier read the same lines: the classifier stores exactly the generated records whose two parts are both non-empty, in the same order |
| WebClassifier.Classifier.constructor | code/material_classifier_web/material_classifier.py:29-76 | a new instance holds the loaded taxonomy and the system prompt built from it, with the consecutive-failure counter at 0 and nothing posted or slept yet |
| WebClassifier.Classifier.CallApi | code/material_classifier_web/material_classifier.py:228-350 | `_call_deepseek_api` returns the outcome of the counted retry loop over the instance's endpoint, and leaves the counter, the requests made and the sleeps as that loop does |
| WebClassifier.Classifier.ClassifyMaterial | code/material_classifier_web/material_classifier.py:352-413 | `classify_material` returns the validated local keyword-and-brand match when there is one, and otherwise the validated answer of the API, with the state changes of the retry loop |
| WebClassifier.Classifier.ClassifyBatch | code/material_classifier_web/material_classifier.py:483-511 | `classify_batch` returns the batch's records and leaves the counter and sleeps of classifying the materials one after the other with rate-limit pauses between them; one record per material, keeping it, in input order, and exactly n-1 more rate-limit pauses |
| WebClassifier.Classifier.LocalMatchKept | code/material_classifier_web/material_classifier.py:385-395 | a local match always passes validation and is returned as built, tagged "keyword_matcher", with no request, no sleep and the counter untouched |
| WebClassifier.Classifier.MissAsksApi | code/material_classifier_web/material_classifier.py:397-409 | without a local match the API is asked, between 1 and MAX_RETRIES times, and a success resets the failure counter |
| WebClassifier.Classifier.ApiClassified | code/material_classifier_web/material_classifier.py:400-409 | an API answer that is returned names a taxonomy entry in its stored original spelling and is tagged "deepseek_api" |
| WebClassifier.Classifier.ClassifiedIsStandard | code/material_classifier_web/material_classifier.py:383-409 | every classification returned names a taxonomy entry in its original spelling and is tagged as coming from the keyword matcher or the API |
| WebClassifier.Classifier.NoRateLimitInside | code/material_classifier_web/material_classifier.py:347-348 | classifying any material in any state sleeps only to back off, never for the rate limit, which is the premise of `Batch.RunShape` |
| LangchainClassifier.Classifier.constructor | code/material_classifier_langchain/material_classifier.py:38-84 | a new instance holds the loaded taxonomy and its prompt parts, with the consecutive-failure counter at 0 and nothing posted or slept yet |
| LangchainClassifier.Classifier.CallApi | code/material_classifier_langchain/material_classifier.py:192-245 | `_call_deepseek_api` returns the outcome of the LangChain retry loop `Retry.LateCounted` in which every request carries the filled-in template, and leaves the counter, the requests and the sleeps as that loop does; the counter is reset once the parser returns, so a non-object parse counts from 0 |
| LangchainClassifier.Classifier.ClassifyMaterial | code/material_classifier_langchain/material_classifier.py:247-305 | `classify_material` returns the validated first multi-field match when there is one, and otherwise the validated answer of the model, with the requests, counter and sleeps of the LangChain retry loop (a non-object parse resets the counter to 1) |
| LangchainClassifier.Classifier.ClassifyBatch | code/material_classifier_langchain/material_classifier.py:375-403 | `classify_batch` returns the batch's records and leaves the counter and sleeps of classifying the materials in order with rate-limit pauses between them; one record per material, keeping it, in input order, and exactly n-1 more rate-limit pauses |
| LangchainClassifier.Classifier.LocalMatchKept | code/material_classifier_langchain/material_classifier.py:280-290 | the local matcher goes first: its hit passes validation and is returned as built, tagged "keyword_matcher", with no request, no sleep and the counter untouched |
| LangchainClassifier.Classifier.MissAsksApi | code/material_classifier_langchain/material_classifier.py:292-301 | only on a miss is the model asked, between 1 and MAX_RETRIES times, and a success resets the failure counter |
| LangchainClassifier.Classifier.ApiClassified | code/material_classifier_langchain/material_classifier.py:294-301 | a model answer that is returned names a taxonomy entry in its stored original spelling and is tagged "deepseek_api" |
| LangchainClassifier.Classifier.ClassifiedIsStandard | code/material_classifier_langchain/material_classifier.py:278-301 | every classification returned names a taxonomy entry in its original spelling and says whether the matcher or the model produced it |
| LangchainClassifier.Classifier.NoRateLimitInside | code/material_classifier_langchain/material_classifier.py:242-243 | classifying any material in any state sleeps only to back off, never for the rate limit, which is the premise of `Batch.RunShape` |
| ClaudeClassifier.Classifier.constructor | code/claude/material_classifier.py:20-38 | a new instance holds the given taxonomy, with nothing posted or slept yet |
| ClaudeClassifier.Open | code/claude/material_classifier.py:20-38 | construction loads the taxonomy from the template's rules block first, failing when there is none, then fails on an empty API key; with a block and a key it always succeeds, and the instance holds the block's mapping with no request made |
| ClaudeClassifier.Classifier.CallApi | code/claude/material_classifier.py:120-220 | `_call_deepseek_api` returns the outcome of the plain retry loop with the fence-only parse, and records the requests and sleeps it makes |
| ClaudeClassifier.Classifier.ClassifyMaterial | code/claude/material_classifier.py:222-267 | `classify_material` always asks the model and returns its validated answer, with no local matcher |
| ClaudeClassifier.Classifier.ClassifyBatch | code/claude/material_classifier.py:319-347 | `classify_batch` returns the batch's records and the requests and sleeps of classifying the materials in order with rate-limit pauses between them; one record per material, keeping it, in input order, and exactly n-1 more rate-limit pauses |
| ClaudeClassifier.Classifier.RetriesAlike | code/claude/material_classifier.py:156-220 | every failure kind is retried alike: between 1 and MAX_RETRIES requests with the same prompt, giving up on the model only after all of them, sleeping 2^i seconds after the i-th failed request but the last |
| ClaudeClassifier.Classifier.ClassifiedIsStandard | code/claude/material_classifier.py:283-313 | an accepted classification names a taxonomy entry in its original spelling and is otherwise the model's own object: the same keys, every other value as sent, and no source tag |
| ClaudeClassifier.Classifier.NoRateLimitInside | code/claude/material_classifier.py:201-220 | classifying any material in any state sleeps only to back off, never for the rate limit, which is the premise of `Batch.RunShape` |
| ClaudeClassifier.ReadMaterials | code/claude/material_classifier.py:364-376 | the reader's loop keeps the rows the completeness filter keeps, in order |
| ClaudeClassifier.ReadKeepsComplete | code/claude/material_classifier.py:368-373 | the reader keeps exactly the rows whose 型号, 品牌 and 供应商 are present and non-blank after strip, and a file with no such row yields nothing |
| ConfigUpdate.ColumnOf | code/claude/update_config_from_excel.py:23 | the column found is called by the name asked for, and there is none exactly when no column has that name |
| ConfigUpdate.Cells | code/claude/update_config_from_excel.py:28-30 | the sheet gives one (大类, 二级类) cell pair per row |
| ConfigUpdate.BuildRules | code/claude/update_config_from_excel.py:22-37 | the column check and the row loop give the rule lines of the sheet, or fail on a missing column, a non-text cell or no rule line at all |
| ConfigUpdate.CollectRules | code/claude/update_config_from_excel.py:27-34 | the row loop skips rows with a NaN cell and appends the rule line of every other row in row order; it raises exactly when some cell can not be stripped |
| ConfigUpdate.AddRow | code/claude/update_config_from_excel.py:29-34 | one row: skipped for a NaN, otherwise its rule line appended; it raises when `.strip()` does |
| ConfigUpdate.FirstTerminator | code/claude/update_config_from_excel.py:46 | the terminator found lies at or after the start and is a newline followed by optional whitespace and "示例：" |
| ConfigUpdate.Section | code/claude/update_config_from_excel.py:45-50 | the section found starts after the header and its newline, and ends no later than the text |
| ConfigUpdate.UpdateConfig | code/claude/update_config_from_excel.py:11-62 | updating fails with the rule-building error, or splices the rules into the section, failing when the text has no section |
| ConfigUpdate.FirstTerminatorShape | code/claude/update_config_from_excel.py:46 | the lazy group stops at the first terminator: none lies between the start and the one found, and none at all when the search fails |
| ConfigUpdate.FirstTerminatorIs | code/claude/update_config_from_excel.py:46 | a terminator with none before it is the one the lazy search finds |
| ConfigUpdate.SectionShape | code/claude/update_config_from_excel.py:45-52 | the section is the text between the first header line and the first terminator after it, neither included; there is none exactly when no terminator follows any header |
| ConfigUpdate.SplicedKeeps | code/claude/update_config_from_excel.py:55-58 | the new text is the old text up to the section start, the rules joined by newlines, then the old text from the section end: prefix and suffix unchanged |
| ConfigUpdate.JoinNewlines | code/claude/update_config_from_excel.py:55 | in the joined rules every newline separates two lines and is followed by the next line's `-` |
| ConfigUpdate.NoTerminatorInside | code/claude/update_config_from_excel.py:55-58 | the spliced rule lines contain no terminator |
| ConfigUpdate.TerminatorAfterLines | code/claude/update_config_from_excel.py:46-58 | after splicing, the first terminator after the section start is the old terminator, right after the rule lines |
| ConfigUpdate.SplicedReread | code/claude/update_config_from_excel.py:45-58 | reading the section of the updated text gives exactly the new rule lines |
| ConfigUpdate.SplicedIdempotent | code/claude/update_config_from_excel.py:45-58 | updating twice with the same rules gives the same text as updating once |
| ConfigUpdate.WrittenRulesReadBack | code/claude/generate_classification_file.py:46-59 | the default-file generator reads back exactly the stripped pairs the updater wrote, in row order, when no cell holds "，二级类：" |
| ConfigUpdate.WrittenLinesAreLines | code/claude/update_config_from_excel.py:27-34 | with no newline inside a cell, every written rule line starts with `-` and holds no newline |
| ConfigUpdate.RuleLineIsLine | code/claude/update_config_from_excel.py:33 | a rule line starts with `-` and holds a newline only if one of its categories does |
| Evaluation.DigitRun | code/material_classifier/validate_classifier.py:123 | the leading digit run is no longer than the text |
| Evaluation.DigitRunOf | code/material_classifier/validate_classifier.py:123 | digits followed by a non-digit form a run exactly as long as the digits |
| Evaluation.DropIndexTrimmed | code/material_classifier/validate_classifier.py:119-123 | dropping a leading index from a stripped label leaves a stripped label |
| Evaluation.CategoryIsKeyNorm | code/material_classifier/validate_classifier.py:115-126 | a non-empty label normalises to the taxonomy-key normalisation of the stripped label without its leading index |
| Evaluation.NormalizedShape | code/material_classifier/validate_classifier.py:115-126 | a normalised label is trimmed and has no upper-case letter, space or tab |
| Evaluation.IndexIgnored | code/material_classifier/validate_classifier.py:121-123 | a leading index number and the whitespace after it do not change the normalised label |
| Evaluation.NormalizeOfKey | code/material_classifier/validate_classifier.py:115-126 | a label already in key form, not starting with a digit, is its own normalisation |
| Evaluation.NormalizeExampleName | code/material_classifier/validate_classifier.py:115-126 | "辅料/标识广告" is its own normalisation |
| Evaluation.NormalizeExample | code/material_classifier/validate_classifier.py:105 | "24 辅料/标识广告" normalises to "辅料/标识广告" |
| Evaluation.CollectSamples | code/material_classifier/validate_classifier.py:70-89 | the row loop keeps, in order, the sample of every row that carries both human labels |
| Evaluation.LoadedShape | code/material_classifier/validate_classifier.py:62-89 | loading fails exactly when a required column is absent, naming exactly those columns; otherwise every sample has both human labels, every labelled row gives its sample, and every sample comes from a row |
| Evaluation.Validator.constructor | code/material_classifier/validate_classifier.py:40 | a new validator holds no samples |
| Evaluation.Validator.Load | code/material_classifier/validate_classifier.py:42-98 | on success the samples are replaced by the loaded ones; on an error they are left as they were |
| Evaluation.ValidateSingle | code/material_classifier/validate_classifier.py:128-224 | the record's marks mean what they say (full is main and sub; a successful record ticks a level exactly when the labels agree after normalisation; a failed one ticks nothing); it succeeds exactly when the classifier does, keeps the sample's fields, and a failure has empty AI labels and the classifier's error |
| Evaluation.IndexedLabelMatches | code/material_classifier/validate_classifier.py:162-168 | an answer naming the human main category without its index number gets a tick at the main level |
| Evaluation.AccuracyBounds | code/material_classifier/validate_classifier.py:361-363 | an accuracy is a percentage between 0 and 100, and 100 exactly when every success is correct |
| Evaluation.MetricsTotals | code/material_classifier/validate_classifier.py:328-346 | metrics fail exactly on no records; success and failure counts are the successful and failed records and add up to the total; with no success every accuracy is 0 |
| Evaluation.MetricsBounded | code/material_classifier/validate_classifier.py:348-363 | correct counts are taken over successes only, so none exceeds the success count, and every accuracy is a percentage |
| Evaluation.MetricsOfFaithful | code/material_classifier/validate_classifier.py:348-350 | for records built by the single validation, full matches are never more than main or sub matches |
| Evaluation.ConfusionData | code/material_classifier/validate_classifier.py:478-488 | the loop lists one (human, AI) pair per compared record, in order |
| Evaluation.SumPut | code/material_classifier/validate_classifier.py:493 | assigning a count changes the total by the difference |
| Evaluation.TallyCounts | code/material_classifier/validate_classifier.py:493 | the group-and-count gives each pair the number of its occurrences, and the counts add up to the number of pairs |
| Evaluation.ConfusionTotal | code/material_classifier/validate_classifier.py:463-495 | the confusion counts sum to the number of compared records: every success, or every successful mismatch when only errors are tallied |
| Evaluation.ErrorsAreMismatches | code/material_classifier/validate_classifier.py:470-472 | for records built by the single validation, the error tally only counts pairs whose labels differ after normalisation |
| Manager.ExtractedFields | code/material_classifier/material_manager.py:24-43 | the classifier is shown the material's name, supplier and material, its 图号/型号 as 型号 and its 分类/品牌 as 品牌, each "" when the material lacks it |
| Manager.SameFieldsSameOutcome | code/material_classifier/material_manager.py:46-83 | no field is required and only the five fields the classifier is shown matter: two materials agreeing on them get the same success or failure, with the same classification or error, whatever other columns they carry |
| Manager.CsvMaterialFields | code/material_classifier/material_manager.py:159-164 | a CSV material has exactly the four standard fields, each read from its row or "" |
| Manager.ReadCsv | code/material_classifier/material_manager.py:135-174 | the CSV reader returns one material per row, in order, skipping none |
| Manager.ExcelMaterialShape | code/material_classifier/material_manager.py:199-252 | an Excel material keeps every original column in front and in order, with its value outside the standard fields; an empty name, model or brand falls back to the stripped cell in position 4, 9 or 8 when the row is long enough, and stays empty otherwise; the material is read as is |
| Manager.ReadExcel | code/material_classifier/material_manager.py:176-259 | the Excel reader returns one material per row, in order, skipping none |
| Manager.ResultRowShape | code/material_classifier/material_manager.py:361-384 | an output row keeps the original columns in front and their values outside the output columns; a success carries the classification's category, sub-category and source, status "success" and an empty error; a failure carries empty categories and source, status "failed" and the error |
| Manager.ResultRows | code/material_classifier/material_manager.py:359-386 | the writer's loop builds one output row per record, in order |
| Manager.IncrementalShape | code/material_classifier/material_manager.py:261-347 | with no output path given nothing is written; otherwise the record's output row is appended once to each named file and no other file changes |
| ClaudeManager.FirstMissingFirst | code/claude/material_manager.py:58-61 | the required-field loop reports a field exactly when some field is blank after strip, and then the first such field |
| ClaudeManager.RequiredCheck | code/claude/material_manager.py:57-61 | the required-field check passes exactly when 物料名称, 图号/型号 and 分类/品牌 are all non-blank |
| ClaudeManager.ClassifiedExactly | code/claude/material_manager.py:46-86 | a material is classified exactly when its name, 图号/型号 and 分类/品牌 are non-blank and the classifier succeeds; an incomplete one fails with "缺少必填字段: " followed by one of its blank required fields |
| ClaudeManager.IncompleteNotClassified | code/claude/material_manager.py:58-61 | the outcome of an incomplete material does not depend on the classifier, so the classifier is not consulted |
| ClaudeManager.ProcessBatch | code/claude/material_manager.py:88-105 | the batch returns one result per material, in order, and sleeps n-1 times |
| ClaudeManager.ReadMaterials | code/claude/material_manager.py:130-144 | the readers' row loop keeps, in order, the material of every row the required-field filter accepts |
| ClaudeManager.CompleteMaterialOf | code/claude/material_manager.py:131-141 | a row's material is kept exactly when the row's own 物料名称, 图号/型号 and 分类/品牌 are non-blank, and it is the row's four standard fields |
| ClaudeManager.ReadKeepsComplete | code/claude/material_manager.py:189-193 | the readers keep the material of every row whose required cells are filled in |
| ClaudeManager.ReadPassesCheck | code/claude/material_manager.py:140-144 | every material the readers return passes the required-field check, so processing it consults the classifier |
| ClaudeManager.PadRows | code/claude/material_manager.py:218-226 | the column-adding step gives every row the missing result columns, empty |
| ClaudeManager.WriteRows | code/claude/material_manager.py:229-250 | the result of index i is written into row i, for the rows there are; rows without a result are left alone |
| ClaudeManager.WriteResults | code/claude/material_manager.py:202-253 | the sheet's columns become its columns followed by the missing result columns, and row i becomes the padded row with the result of index i written in; surplus results are ignored |
| ClaudeManager.PaddingFresh | code/claude/material_manager.py:219-226 | the added columns are different and none of them is one the row already had |
| ClaudeManager.PaddedShape | code/claude/material_manager.py:219-226 | padding appends exactly the missing result columns, empty, and leaves every cell the row had |
| ClaudeManager.SuccessKeepsColumns | code/claude/material_manager.py:233-244 | on a padded row a success adds no column and moves none |
| ClaudeManager.SuccessKeepsCells | code/claude/material_manager.py:233-244 | a success keeps every cell outside the result columns |
| ClaudeManager.SuccessWritten | code/claude/material_manager.py:237-244 | a success writes its main and sub category, "success" and an empty error |
| ClaudeManager.FailureKeepsColumns | code/claude/material_manager.py:245-250 | on a padded row a failure adds no column and moves none |
| ClaudeManager.FailureKeepsCells | code/claude/material_manager.py:245-250 | a failure keeps every cell but the status and the error, the category cells included |
| ClaudeManager.FailureWritten | code/claude/material_manager.py:247-250 | a failure writes "failed" and its error |
| ClaudeManager.PaddedColumns | code/claude/material_manager.py:219-226 | a padded row has distinct columns, the result columns among them |
| ClaudeManager.PaddedCells | code/claude/material_manager.py:219-226 | padding keeps the row's cells and leaves the added ones empty |
| ClaudeManager.WrittenRowShape | code/claude/material_manager.py:218-250 | row i after the write has the sheet's columns followed by the result columns it lacked, keeps its cells outside the result columns, holds the written values of its result, and holds "" in the added columns when it has no result |
| Process2025.ClassifyInfoFields | code/material_classifier/process_2025_materials.py:75-80 | the classifier sees the row's 物料名称, its 图号/型号 as 型号, its 分类/品牌 as 品牌 and its 材料, each "" when absent, and no supplier |
| Process2025.ProcessedShape | code/material_classifier/process_2025_materials.py:86-106 | a processed row keeps the row's columns in front and its cells outside the result columns; a success adds the categories and "success" and keeps whatever error cell the row had; a failure adds empty categories, "failed" and the error |
| Process2025.ProcessedKeepsColumns | code/material_classifier/process_2025_materials.py:87-92 | the processed row keeps every cell of the row under its own column |
| Process2025.ProcessBatch | code/material_classifier/process_2025_materials.py:108-147 | every material is processed; the results are collected in the order the jobs finish, one per material, with a rate-limit sleep after each result, n in all |
| Process2025.OrderBounded | code/material_classifier/process_2025_materials.py:125-128 | a completion order has one entry per submitted job, each naming a job |
| Process2025.EveryResultCollected | code/material_classifier/process_2025_materials.py:125-131 | every material's result is collected, whatever order the jobs finish in |
| Process2025.OutputTableShape | code/material_classifier/process_2025_materials.py:160-169 | the written sheet has the original columns then the four result columns, one row per result in order, each cell the result's value, no value where the result lacks a column another result has, and "" in a result column no result has |
| Process2025.Unresolved | code/material_classifier/process_2025_materials.py:168-169 | the columns selection cannot find are exactly the original columns that no result has and that are not result columns |
| Process2025.EmptyBatchSheet | code/material_classifier/process_2025_materials.py:160-169 | the intended writer turns an empty batch into a sheet with the header and no row |
| Process2025.AsWrittenFails | code/material_classifier/process_2025_materials.py:160-169 | as written, the writer fails exactly when an original column outside the result columns is in no result, and otherwise writes the intended sheet |
| Process2025.EmptyBatchFails | code/material_classifier/process_2025_materials.py:160-169 | as written, an empty batch over a sheet with a 物料名称 column cannot be written |
| Process2025.BatchWritable | code/material_classifier/process_2025_materials.py:160-169 | a non-empty batch of processed rows of a sheet is written as intended, because every original column is in each processed row |

## Left out

- File input and output: spreadsheets and CSV files are sequences of rows, and a row is an ordered list of (column, text) pairs. `generate_report`, `print_summary`, the temporary-file bookkeeping, `cleanup` and the `main()` entry points are not modelled.
- The direct-HTTP classifier's prompt, `Config.PROMPT_TEMPLATE.format(material_info=...)` (code/claude/material_classifier.py:116), is the parameter `render`. Nothing ties it to the template whose rules block `Open` loads, and the `KeyError` that `format` raises on stray braces is not modelled. No property depends on the rendered text.
- The direct-HTTP classifier's `write_results_to_csv` (code/claude/material_classifier.py:388-429) is file output only, so it is not modelled.
- Cell values that are not text: every cell is a string. The loaders' `'nan'` cells are modelled. A numeric cell reaching `.strip()` in the managers, which would raise, is not.
- Network and library clients: the OpenAI, `requests` and LangChain clients are an oracle of replies, and `json.loads` and the output parser are partial functions given as parameters. The JSON grammar is not modelled.
- The web classifier's `initialize_conversation_context` is not modelled: it is a network call whose only result is a context id that the rest of the classifier does not use.
- The class-level singleton and mapping cache (`__new__`): each instance is built from a taxonomy that does not change. The API-key check of the web and LangChain constructors is not modelled. The direct-HTTP one is.
- `Retry`: a MAX_RETRIES of 0 is modelled as a failed call (`NoAttempts`). In the source the loop then returns `None`, and validation raises on it. The lemmas about call shapes assume at least one attempt, as the configured value 3 gives.
- Error messages: exceptions are datatypes naming their cause, and `str(e)` is not modelled. The one message the managers write into results, "缺少必填字段: " followed by the field, is modelled.
- Logging is not modelled.
- `time.sleep`: modelled as a pause recorded in a trace. Durations are 2^attempt seconds for back-offs, and a rate-limit token for API_RATE_LIMIT.
- Concurrency:
  - `validate_batch` (with its `random.sample`) and the command-line manager's `process_batch` run on thread pools and are not modelled.
  - The 2025 processor's `process_batch` is modelled with the order in which jobs finish given as a parameter.
  - Metrics and confusion counts take the list of results as a parameter instead of reading `self.results`.
- Evaluation:
  - accuracies are exact reals, not floats, and their `:.2f` formatting is not modelled;
  - the confusion counts are modelled per (human, AI) pair, and the sorted pivot layout of the `DataFrame` is not.
- Managers and evaluator: the classifier they call is a function from the record shown to it to an answer. The failure counter and sleeps of a classifier instance are modelled in the classifier modules, not threaded through these callers.
- `Manager.IncrementalShape`: write failures, which the source logs and swallows, are not modelled. A file is modelled as its list of rows.
- Text:
  - `lower()` is modelled for ASCII letters only;
  - `\s` and `strip()` use Python's `str.isspace` set;
  - `\d` is the ASCII and full-width digits, not every Unicode decimal digit.
- `ConfigUpdate`: the sheet is required to be rectangular, one cell per column in every row, as a `DataFrame` always is.
- The 2025 processor's `read_materials_from_excel` returns the rows and columns of the sheet unchanged, so it needs no model of its own.
- The LangChain copy's own keyword matcher file is not part of this model. That copy is modelled with the first-match matcher of code/material_classifier/keyword_matcher.py, which has the same interface.

## Findings

| source | as written | input that shows it | evidently intended | confidence | as-written member | corrected member |
|---|---|---|---|---|---|---|
| code/material_classifier/process_2025_materials.py:160-169 | the frame is built from the results alone, and only the four result columns are added when missing, so selecting `columns + [result columns]` fails when an original column is in no result | an empty batch from a sheet with a 物料名称 column: `pd.DataFrame([])` has no columns, and `df[new_columns]` raises a key error | the sheet is written with the original columns then the result columns, and an empty batch gives the header and no rows | medium, not executed | Process2025.WriteResultsAsWritten, Process2025.EmptyBatchFails | Process2025.OutputTable, Process2025.EmptyBatchSheet |
