/**
 * The first-match keyword matcher used by the command-line classifiers: it
 * collects `(main, sub, keyword)` for every keyword hit and returns the pair
 * of the first one, and tries the record's fields one after the other.
 */
module FirstMatcher {
  import opened Wrappers
  import opened Text
  import opened Assoc
  import opened Taxonomy
  import opened Material
  import opened Keywords
  import opened WebMatcher

  /** `(orig_main, orig_sub, keyword)`. */
  type Triple = (string, string, string)

  /** The triples of entry `e` for the hitting keywords `ws`, in order. */
  function Tag(e: Entry, ws: seq<string>): (r: seq<Triple>)
    ensures |r| == |ws|
  {
    if ws == [] then []
    else
      var m := |ws| - 1;
      Tag(e, ws[..m]) + [(e.main, e.sub, ws[m])]
  }

  /** The triples of every entry of `t` for the keywords `words(e)`, in taxonomy order. */
  function Tagged(t: Table, words: Entry -> seq<string>): seq<Triple>
  {
    if t == [] then []
    else
      var n := |t| - 1;
      Tagged(t[..n], words) + Tag(t[n].1, words(t[n].1))
  }

  /** The hitting keywords of entry `e` for the normalised name `nn`. */
  function EntryWords(e: Entry, nn: string): seq<string> {
    HitWords(ItemList(e.keywords), nn)
  }

  /** `matched_categories` at the end of `match_keywords`. */
  function NameTriples(t: Table, name: string): seq<Triple>
  {
    var nn := MatchNorm(name);
    if nn == [] then [] else Tagged(t, (e: Entry) => EntryWords(e, nn))
  }

  /** What `match_keywords(name)` returns: the pair of the first hit, if any. */
  function FirstMatch(t: Table, name: string): Option<(string, string)>
  {
    var tr := NameTriples(t, name);
    if tr == [] then None else Some((tr[0].0, tr[0].1))
  }

  /** `match_keywords`: both loops, then the first collected triple. */
  method MatchKeywords(t: Table, name: string) returns (r: Option<(string, string)>)
    ensures r == FirstMatch(t, name)
  {
    if name == [] {
      return None;
    }
    var nn := MatchNorm(name);
    if nn == [] {
      return None;
    }
    ghost var words := (e: Entry) => EntryWords(e, nn);
    var matched: seq<Triple> := [];
    var i := 0;
    while i < |t|
      invariant 0 <= i <= |t|
      invariant matched == Tagged(t[..i], words)
    {
      assert t[..i + 1][..i] == t[..i];
      var e := t[i].1;
      if e.keywords == [] {
        SeparatorCellHasNoItems(e.keywords, nn);
        i := i + 1;
        continue;
      }
      var keywordList := ItemList(e.keywords);
      if keywordList == [] {
        i := i + 1;
        continue;
      }
      var found := KeywordTriples(e, keywordList, nn);
      matched := matched + found;
      i := i + 1;
    }
    assert t[..i] == t;
    if matched != [] {
      return Some((matched[0].0, matched[0].1));
    }
    return None;
  }

  /** The inner loop of `match_keywords`: a triple per keyword that hits. */
  method KeywordTriples(e: Entry, keywordList: seq<string>, nn: string) returns (found: seq<Triple>)
    ensures found == Tag(e, HitWords(keywordList, nn))
  {
    found := [];
    ghost var hits: seq<string> := [];
    var j := 0;
    while j < |keywordList|
      invariant 0 <= j <= |keywordList|
      invariant hits == HitWords(keywordList[..j], nn)
      invariant found == Tag(e, hits)
    {
      HitWordsSnoc(keywordList, j, nn);
      var keyword := keywordList[j];
      var nk := MatchNorm(keyword);
      if nk == [] {
        j := j + 1;
        continue;
      }
      if Contains(nn, nk) {
        TagSnoc(e, hits, keyword);
        found := found + [(e.main, e.sub, keyword)];
        hits := hits + [keyword];
      }
      j := j + 1;
    }
    assert keywordList[..j] == keywordList;
  }

  lemma HitWordsSnoc(kws: seq<string>, j: nat, normText: string)
    requires j < |kws|
    ensures HitWords(kws[..j + 1], normText) ==
      HitWords(kws[..j], normText) + (if Hit(kws[j], normText) then [kws[j]] else [])
  {
    assert kws[..j + 1][..j] == kws[..j];
  }

  lemma TagSnoc(e: Entry, ws: seq<string>, w: string)
    ensures Tag(e, ws + [w]) == Tag(e, ws) + [(e.main, e.sub, w)]
  {
    assert (ws + [w])[..|ws|] == ws;
  }

  /** The `k`-th triple of an entry names that entry and its `k`-th hitting keyword. */
  lemma {:induction false} TagAt(e: Entry, ws: seq<string>, k: nat)
    requires k < |ws|
    ensures Tag(e, ws)[k] == (e.main, e.sub, ws[k])
  {
    var m := |ws| - 1;
    if k < m {
      TagAt(e, ws[..m], k);
    }
  }

  /**
   * The triples and the web matcher's candidates line up one for one: same
   * length, and the `k`-th triple carries the pair of the `k`-th candidate.
   */
  lemma {:induction false} TaggedLinesUp(t: Table, words: Entry -> seq<string>, count: Entry -> nat)
    requires forall e :: count(e) == |words(e)|
    ensures |Tagged(t, words)| == |EntryHits(t, count)|
    ensures forall k :: 0 <= k < |Tagged(t, words)| ==>
      (Tagged(t, words)[k].0, Tagged(t, words)[k].1) == PairOf(EntryHits(t, count)[k])
  {
    if t != [] {
      var n := |t| - 1;
      var e := t[n].1;
      TaggedLinesUp(t[..n], words, count);
      var a := Tagged(t[..n], words);
      var b := Tag(e, words(e));
      var c := EntryHits(t[..n], count);
      var d := Repeat(CandidateOf(e), count(e));
      assert Tagged(t, words) == a + b;
      assert EntryHits(t, count) == c + d;
      var ab: seq<Triple> := a + b;
      var cd: seq<Candidate> := c + d;
      forall k | 0 <= k < |ab|
        ensures (ab[k].0, ab[k].1) == PairOf(cd[k])
      {
        if k >= |a| {
          TagAt(e, words(e), k - |a|);
          assert d[k - |a|] in d;
        }
      }
    }
  }

  /**
   * The first-match `match_keywords` returns the pair of the first candidate
   * the web matcher's `match_keywords` lists for the same name.
   */
  lemma FirstMatchIsWebHead(t: Table, name: string)
    ensures FirstMatch(t, name) ==
      if Matches(t, name) == [] then None else Some(PairOf(Matches(t, name)[0]))
  {
    var nn := MatchNorm(name);
    if nn != [] {
      TaggedLinesUp(t, (e: Entry) => EntryWords(e, nn), (e: Entry) => HitCount(e, nn));
    }
  }

  /**
   * The first-match `match_by_multiple_fields`: the first of name, model,
   * brand and material whose `match_keywords` is not None.
   */
  function FirstFields(t: Table, row: Row): Option<(string, string)>
  {
    var byName := FirstMatch(t, Field(row, NAME));
    if byName.Some? then byName
    else
      var byModel := FirstMatch(t, FieldOr(row, DRAWING_MODEL, MODEL));
      if byModel.Some? then byModel
      else
        var byBrand := FirstMatch(t, FieldOr(row, CATEGORY_BRAND, BRAND));
        if byBrand.Some? then byBrand
        else FirstMatch(t, Field(row, MATERIAL))
  }

  /** `match_by_multiple_fields`: the early-return chain. */
  method MatchByMultipleFields(t: Table, row: Row) returns (r: Option<(string, string)>)
    ensures r == FirstFields(t, row)
  {
    r := MatchKeywords(t, Field(row, NAME));
    if r.Some? {
      return;
    }
    r := MatchKeywords(t, FieldOr(row, DRAWING_MODEL, MODEL));
    if r.Some? {
      return;
    }
    r := MatchKeywords(t, FieldOr(row, CATEGORY_BRAND, BRAND));
    if r.Some? {
      return;
    }
    r := MatchKeywords(t, Field(row, MATERIAL));
  }

  /** De-duplication keeps the first element in front. */
  lemma {:induction false} DedupHead(s: seq<Candidate>)
    requires s != []
    ensures Dedup(s) != [] && Dedup(s)[0] == s[0]
  {
    var n := |s| - 1;
    if n > 0 {
      DedupHead(s[..n]);
    } else {
      assert Seen(s[..n]) == {};
    }
  }

  /**
   * The first-match classifier's field search returns the pair of the web
   * classifier's first candidate, and None exactly when the web one lists none.
   */
  lemma FirstFieldsIsWebHead(t: Table, row: Row)
    ensures FirstFields(t, row) ==
      if MultiField(t, row) == [] then None else Some(PairOf(MultiField(t, row)[0]))
  {
    var name := Field(row, NAME);
    var model := FieldOr(row, DRAWING_MODEL, MODEL);
    var brand := FieldOr(row, CATEGORY_BRAND, BRAND);
    var material := Field(row, MATERIAL);
    FirstMatchIsWebHead(t, name);
    FirstMatchIsWebHead(t, model);
    FirstMatchIsWebHead(t, brand);
    FirstMatchIsWebHead(t, material);
    DedupEmpty(Matches(t, material));
    if Matches(t, name) != [] {
      DedupHead(Matches(t, name));
    } else if Matches(t, model) != [] {
      DedupHead(Matches(t, model));
    } else if Matches(t, brand) != [] {
      DedupHead(Matches(t, brand));
    } else if Matches(t, material) != [] {
      DedupHead(Matches(t, material));
    }
  }

  /**
   * When the record's brand is blank, the web classifier's brand tie-break
   * and the first-match classifier choose the same category.
   */
  lemma BrandlessPicksAgree(t: Table, row: Row)
    requires MatchNorm(FieldOr(row, CATEGORY_BRAND, BRAND)) == []
    ensures Pick(t, row) == FirstFields(t, row)
  {
    FirstFieldsIsWebHead(t, row);
    PickIsCandidate(t, row);
  }

  /** The pair found is the (main, sub) of a taxonomy entry. */
  lemma FirstFieldsFromTable(t: Table, row: Row)
    ensures FirstFields(t, row).Some? ==> exists p :: p in t && FirstFields(t, row).value == (p.1.main, p.1.sub)
  {
    var r := FirstFields(t, row);
    var ms := MultiField(t, row);
    FirstFieldsIsWebHead(t, row);
    if r.Some? {
      assert ms != [] && r.value == PairOf(ms[0]);
      MultiFieldFromTable(t, row);
      assert ms[0] in ms;
      var p :| p in t && ms[0] == CandidateOf(p.1);
      assert r.value == (p.1.main, p.1.sub);
    }
  }
}
