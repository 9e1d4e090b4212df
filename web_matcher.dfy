/**
 * The keyword/brand matcher of the web classifier: every keyword hit of every
 * taxonomy entry, the field-by-field search with de-duplication, and the
 * brand tie-break between several candidates.
 */
module WebMatcher {
  import opened Wrappers
  import opened Text
  import opened Assoc
  import opened Taxonomy
  import opened Material
  import opened Keywords

  /** `(original_main, original_sub, common_brands)`. */
  datatype Candidate = Candidate(main: string, sub: string, brands: string)

  function CandidateOf(e: Entry): Candidate {
    Candidate(e.main, e.sub, e.brands)
  }

  function PairOf(c: Candidate): (string, string) {
    (c.main, c.sub)
  }

  function Repeat(c: Candidate, k: nat): (r: seq<Candidate>)
    ensures |r| == k && forall i :: 0 <= i < k ==> r[i] == c
  {
    if k == 0 then [] else Repeat(c, k - 1) + [c]
  }

  // ---------------------------------------------------------------------------
  // match_keywords

  /** The number of keywords of entry `e` that hit the normalised name `nn`. */
  function HitCount(e: Entry, nn: string): nat {
    |HitWords(ItemList(e.keywords), nn)|
  }

  /** `count(e)` copies of each entry's candidate, in taxonomy order. */
  function EntryHits(t: Table, count: Entry -> nat): seq<Candidate>
  {
    if t == [] then []
    else
      var e := t[|t| - 1].1;
      EntryHits(t[..|t| - 1], count) + Repeat(CandidateOf(e), count(e))
  }

  /**
   * What `match_keywords(name)` returns: one candidate per hitting keyword of
   * each entry, in taxonomy order.
   */
  function Matches(t: Table, name: string): seq<Candidate>
  {
    var nn := MatchNorm(name);
    if nn == [] then [] else EntryHits(t, (e: Entry) => HitCount(e, nn))
  }

  /** `match_keywords`: the loop over the mapping and over each entry's keyword list. */
  method MatchKeywords(t: Table, name: string) returns (matched: seq<Candidate>)
    ensures matched == Matches(t, name)
  {
    if name == [] {
      return [];
    }
    var nn := MatchNorm(name);
    if nn == [] {
      return [];
    }
    ghost var count := (e: Entry) => HitCount(e, nn);
    matched := [];
    var i := 0;
    while i < |t|
      invariant 0 <= i <= |t|
      invariant matched == EntryHits(t[..i], count)
    {
      var e := t[i].1;
      EntryHitsStep(t, i, count);
      if e.keywords == [] {
        SeparatorCellHasNoItems(e.keywords, nn);
        i := i + 1;
        continue;
      }
      var keywordList := ItemList(e.keywords);
      if keywordList == [] {
        i := i + 1;
        continue;
      }
      var hits := KeywordHits(e, keywordList, nn);
      matched := matched + hits;
      i := i + 1;
    }
    assert t[..i] == t;
  }

  /** The inner loop of `match_keywords`: one candidate per keyword that hits. */
  method KeywordHits(e: Entry, keywordList: seq<string>, nn: string) returns (hits: seq<Candidate>)
    ensures hits == Repeat(CandidateOf(e), |HitWords(keywordList, nn)|)
  {
    hits := [];
    var j := 0;
    while j < |keywordList|
      invariant 0 <= j <= |keywordList|
      invariant hits == Repeat(CandidateOf(e), |HitWords(keywordList[..j], nn)|)
    {
      HitWordsStep(keywordList, j, nn);
      ghost var k := |HitWords(keywordList[..j], nn)|;
      var nk := MatchNorm(keywordList[j]);
      if nk == [] {
        j := j + 1;
        continue;
      }
      if Contains(nn, nk) {
        assert Repeat(CandidateOf(e), k + 1) == Repeat(CandidateOf(e), k) + [CandidateOf(e)];
        hits := hits + [CandidateOf(e)];
      }
      j := j + 1;
    }
    assert keywordList[..j] == keywordList;
  }

  lemma EntryHitsStep(t: Table, i: nat, count: Entry -> nat)
    requires i < |t|
    ensures EntryHits(t[..i + 1], count) == EntryHits(t[..i], count) + Repeat(CandidateOf(t[i].1), count(t[i].1))
  {
    assert t[..i + 1][..i] == t[..i];
  }

  /** The matches of a concatenated taxonomy are the matches of its parts, in order. */
  lemma {:induction false} EntryHitsAppend(t1: Table, t2: Table, count: Entry -> nat)
    ensures EntryHits(t1 + t2, count) == EntryHits(t1, count) + EntryHits(t2, count)
    decreases |t2|
  {
    if t2 == [] {
      assert t1 + t2 == t1;
    } else {
      var n := |t2| - 1;
      var t := t1 + t2;
      assert t[..|t| - 1] == t1 + t2[..n];
      assert t[|t| - 1] == t2[n];
      EntryHitsAppend(t1, t2[..n], count);
    }
  }

  /** Every candidate is the candidate of a taxonomy entry with a positive count. */
  lemma {:induction false} EntryHitsSound(t: Table, count: Entry -> nat)
    ensures forall c :: c in EntryHits(t, count) ==> exists p :: p in t && c == CandidateOf(p.1) && count(p.1) > 0
  {
    if t != [] {
      var n := |t| - 1;
      EntryHitsSound(t[..n], count);
      forall c | c in EntryHits(t, count)
        ensures exists p :: p in t && c == CandidateOf(p.1) && count(p.1) > 0
      {
        if c in EntryHits(t[..n], count) {
          var p :| p in t[..n] && c == CandidateOf(p.1) && count(p.1) > 0;
          assert p in t;
        } else {
          assert t[n] in t;
        }
      }
    }
  }

  /** Every entry with a positive count contributes its candidate. */
  lemma {:induction false} EntryHitsComplete(t: Table, count: Entry -> nat, i: nat)
    requires i < |t| && count(t[i].1) > 0
    ensures CandidateOf(t[i].1) in EntryHits(t, count)
  {
    var n := |t| - 1;
    var r := Repeat(CandidateOf(t[n].1), count(t[n].1));
    assert EntryHits(t, count) == EntryHits(t[..n], count) + r;
    if i < n {
      assert t[..n][i] == t[i];
      EntryHitsComplete(t[..n], count, i);
    } else {
      assert r[0] in r;
    }
  }

  /**
   * `match_keywords` is sound and complete: a candidate is returned exactly
   * for the entries one of whose listed keywords hits the normalised name.
   */
  lemma MatchesExact(t: Table, name: string, i: nat)
    requires i < |t|
    ensures (exists w :: w in ItemList(t[i].1.keywords) && Hit(w, MatchNorm(name))) ==>
      CandidateOf(t[i].1) in Matches(t, name)
    ensures forall c :: c in Matches(t, name) ==>
      exists p, w :: p in t && c == CandidateOf(p.1) && w in ItemList(p.1.keywords) && Hit(w, MatchNorm(name))
  {
    var nn := MatchNorm(name);
    var count := (e: Entry) => HitCount(e, nn);
    if nn != [] {
      if exists w :: w in ItemList(t[i].1.keywords) && Hit(w, nn) {
        var w :| w in ItemList(t[i].1.keywords) && Hit(w, nn);
        HitWordsExact(ItemList(t[i].1.keywords), nn);
        assert w in HitWords(ItemList(t[i].1.keywords), nn);
        EntryHitsComplete(t, count, i);
      }
      EntryHitsSound(t, count);
      forall c | c in Matches(t, name)
        ensures exists p, w :: p in t && c == CandidateOf(p.1) && w in ItemList(p.1.keywords) && Hit(w, nn)
      {
        var p :| p in t && c == CandidateOf(p.1) && count(p.1) > 0;
        var hw := HitWords(ItemList(p.1.keywords), nn);
        HitWordsExact(ItemList(p.1.keywords), nn);
        assert hw[0] in hw;
      }
    } else {
      if exists w :: w in ItemList(t[i].1.keywords) && Hit(w, nn) {
        var w :| w in ItemList(t[i].1.keywords) && Hit(w, nn);
        ContainsAt([], MatchNorm(w));
      }
    }
  }

  /** A name that normalises to "" (in particular the empty name) matches nothing. */
  lemma EmptyNameMatchesNothing(t: Table, name: string)
    requires MatchNorm(name) == []
    ensures Matches(t, name) == []
  {
  }

  // ---------------------------------------------------------------------------
  // match_by_multiple_fields

  /** The (main, sub) pairs of `s`. */
  function Seen(s: seq<Candidate>): set<(string, string)>
  {
    set c | c in s :: PairOf(c)
  }

  /** `s` with every candidate whose pair was already seen dropped: first-seen order. */
  function Dedup(s: seq<Candidate>): seq<Candidate>
  {
    if s == [] then []
    else
      var n := |s| - 1;
      Dedup(s[..n]) + (if PairOf(s[n]) in Seen(s[..n]) then [] else [s[n]])
  }

  /**
   * What `match_by_multiple_fields` returns: the de-duplicated matches of the
   * first field among name, model, brand and material that has any.
   */
  function MultiField(t: Table, row: Row): seq<Candidate>
  {
    FirstFieldMatches(t, Field(row, NAME), FieldOr(row, DRAWING_MODEL, MODEL),
                      FieldOr(row, CATEGORY_BRAND, BRAND), Field(row, MATERIAL))
  }

  /** The de-duplicated matches of the first of the four texts that has any. */
  function FirstFieldMatches(t: Table, name: string, model: string, brand: string, material: string): seq<Candidate>
  {
    var byName := Matches(t, name);
    if byName != [] then Dedup(byName)
    else
      var byModel := Matches(t, model);
      if byModel != [] then Dedup(byModel)
      else
        var byBrand := Matches(t, brand);
        if byBrand != [] then Dedup(byBrand)
        else Dedup(Matches(t, material))
  }

  /** The loop that appends each match whose pair is not yet in `checked_categories`. */
  method AppendUnseen(matches: seq<Candidate>) returns (all: seq<Candidate>, checked: set<(string, string)>)
    ensures all == Dedup(matches) && checked == Seen(matches)
  {
    all := [];
    checked := {};
    var j := 0;
    while j < |matches|
      invariant 0 <= j <= |matches|
      invariant all == Dedup(matches[..j]) && checked == Seen(matches[..j])
    {
      assert matches[..j + 1][..j] == matches[..j];
      var m := matches[j];
      if PairOf(m) !in checked {
        all := all + [m];
        checked := checked + {PairOf(m)};
      }
      assert Seen(matches[..j + 1]) == Seen(matches[..j]) + {PairOf(m)};
      j := j + 1;
    }
    assert matches[..j] == matches;
  }

  /** `match_by_multiple_fields`. */
  method MatchByMultipleFields(t: Table, row: Row) returns (all: seq<Candidate>)
    ensures all == MultiField(t, row)
  {
    var checked: set<(string, string)>;
    var matches := MatchKeywords(t, Field(row, NAME));
    all, checked := AppendUnseen(matches);
    DedupEmpty(matches);
    if all == [] {
      matches := MatchKeywords(t, FieldOr(row, DRAWING_MODEL, MODEL));
      all, checked := AppendUnseen(matches);
      DedupEmpty(matches);
    }
    if all == [] {
      matches := MatchKeywords(t, FieldOr(row, CATEGORY_BRAND, BRAND));
      all, checked := AppendUnseen(matches);
      DedupEmpty(matches);
    }
    if all == [] {
      matches := MatchKeywords(t, Field(row, MATERIAL));
      all, checked := AppendUnseen(matches);
    }
  }

  /** De-duplication empties only the empty list. */
  lemma DedupEmpty(s: seq<Candidate>)
    ensures Dedup(s) == [] <==> s == []
  {
    if s != [] {
      DedupKeepsPairs(s);
      assert PairOf(s[0]) in Seen(s);
    }
  }

  /** De-duplication keeps the set of pairs and takes every element from the input. */
  lemma {:induction false} DedupKeepsPairs(s: seq<Candidate>)
    ensures Seen(Dedup(s)) == Seen(s)
    ensures forall c :: c in Dedup(s) ==> c in s
  {
    if s != [] {
      var n := |s| - 1;
      DedupKeepsPairs(s[..n]);
      assert s == s[..n] + [s[n]];
      assert Seen(s) == Seen(s[..n]) + {PairOf(s[n])};
    }
  }

  /** The de-duplicated list has pairwise distinct (main, sub) pairs. */
  lemma {:induction false} DedupDistinct(s: seq<Candidate>)
    ensures forall i, j :: 0 <= i < j < |Dedup(s)| ==> PairOf(Dedup(s)[i]) != PairOf(Dedup(s)[j])
  {
    if s != [] {
      var n := |s| - 1;
      DedupDistinct(s[..n]);
      DedupKeepsPairs(s[..n]);
      var d := Dedup(s[..n]);
      if PairOf(s[n]) !in Seen(s[..n]) {
        forall i | 0 <= i < |d| ensures PairOf(d[i]) != PairOf(s[n]) {
          assert PairOf(d[i]) in Seen(d);
        }
      }
    }
  }

  /** The supplier column is never consulted. */
  lemma SupplierIgnored(t: Table, row: Row, v: string)
    ensures MultiField(t, Put(row, SUPPLIER, v)) == MultiField(t, row)
  {
    var row' := Put(row, SUPPLIER, v);
    OtherFieldsKept(row, SUPPLIER, v);
  }

  // ---------------------------------------------------------------------------
  // match_by_keywords_and_brand

  /**
   * A listed common brand agrees with the material's normalised brand when its
   * own normalisation is non-empty and either one contains the other.
   */
  predicate BrandAgrees(brand: string, nb: string) {
    var w := MatchNorm(brand);
    w != [] && (Contains(nb, w) || Contains(w, nb))
  }

  /** Some brand of `bs` agrees with `nb`. */
  predicate AnyAgrees(bs: seq<string>, nb: string) {
    bs != [] && (AnyAgrees(bs[..|bs| - 1], nb) || BrandAgrees(bs[|bs| - 1], nb))
  }

  /** The candidate lists a common brand that agrees with `nb`. */
  predicate HasBrandMatch(c: Candidate, nb: string) {
    AnyAgrees(ItemList(c.brands), nb)
  }

  lemma AnyAgreesStep(bs: seq<string>, j: nat, nb: string)
    requires j < |bs|
    ensures AnyAgrees(bs[..j + 1], nb) <==> AnyAgrees(bs[..j], nb) || BrandAgrees(bs[j], nb)
  {
    assert bs[..j + 1][..j] == bs[..j];
  }

  /** `AnyAgrees` is the existential it names. */
  lemma {:induction false} AnyAgreesExists(bs: seq<string>, nb: string)
    ensures AnyAgrees(bs, nb) <==> exists k :: 0 <= k < |bs| && BrandAgrees(bs[k], nb)
  {
    if bs != [] {
      var n := |bs| - 1;
      AnyAgreesExists(bs[..n], nb);
      if exists k :: 0 <= k < |bs| && BrandAgrees(bs[k], nb) {
        var k :| 0 <= k < |bs| && BrandAgrees(bs[k], nb);
        if k < n {
          assert bs[..n][k] == bs[k];
        }
      }
      if AnyAgrees(bs[..n], nb) {
        var k :| 0 <= k < n && BrandAgrees(bs[..n][k], nb);
        assert bs[k] == bs[..n][k];
      }
    }
  }

  /** The pairs of the candidates satisfying `agrees`, in order. */
  function BrandMatches(ks: seq<Candidate>, agrees: Candidate -> bool): seq<(string, string)>
  {
    if ks == [] then []
    else
      var n := |ks| - 1;
      BrandMatches(ks[..n], agrees) + (if agrees(ks[n]) then [PairOf(ks[n])] else [])
  }

  /** What `match_by_keywords_and_brand` returns. */
  function Pick(t: Table, row: Row): Option<(string, string)>
  {
    var ks := MultiField(t, row);
    if ks == [] then None
    else if |ks| == 1 then Some(PairOf(ks[0]))
    else
      var nb := MatchNorm(FieldOr(row, CATEGORY_BRAND, BRAND));
      if nb == [] then Some(PairOf(ks[0]))
      else
        var bm := BrandMatches(ks, (c: Candidate) => HasBrandMatch(c, nb));
        if bm != [] then Some(bm[0]) else Some(PairOf(ks[0]))
  }

  /** The inner brand loop: stops at the first listed brand that agrees with `nb`. */
  method AnyBrandAgrees(brandList: seq<string>, nb: string) returns (found: bool)
    ensures found == AnyAgrees(brandList, nb)
  {
    var j := 0;
    found := false;
    while j < |brandList|
      invariant 0 <= j <= |brandList|
      invariant found == AnyAgrees(brandList[..j], nb)
    {
      AnyAgreesStep(brandList, j, nb);
      var w := MatchNorm(brandList[j]);
      if w == [] {
        j := j + 1;
        continue;
      }
      if Contains(nb, w) || Contains(w, nb) {
        found := true;
        j := j + 1;
        break;
      }
      j := j + 1;
    }
    if found {
      AnyAgreesPrefix(brandList, j, nb);
    } else {
      assert brandList[..j] == brandList;
    }
  }

  /** `match_by_keywords_and_brand`: the brand loop with its inner loop and `break`. */
  method MatchByKeywordsAndBrand(t: Table, row: Row) returns (r: Option<(string, string)>)
    ensures r == Pick(t, row)
  {
    var ks := MatchByMultipleFields(t, row);
    if ks == [] {
      return None;
    }
    if |ks| == 1 {
      return Some(PairOf(ks[0]));
    }
    var nb := MatchNorm(FieldOr(row, CATEGORY_BRAND, BRAND));
    if nb == [] {
      return Some(PairOf(ks[0]));
    }
    ghost var agrees := (c: Candidate) => HasBrandMatch(c, nb);
    var brandMatches: seq<(string, string)> := [];
    var i := 0;
    while i < |ks|
      invariant 0 <= i <= |ks|
      invariant brandMatches == BrandMatches(ks[..i], agrees)
    {
      BrandMatchesStep(ks, i, agrees);
      var c := ks[i];
      if c.brands == [] {
        SeparatorCellHasNoItems(c.brands, nb);
        i := i + 1;
        continue;
      }
      var brandList := ItemList(c.brands);
      if brandList == [] {
        i := i + 1;
        continue;
      }
      var found := AnyBrandAgrees(brandList, nb);
      if found {
        brandMatches := brandMatches + [PairOf(c)];
      }
      i := i + 1;
    }
    assert ks[..i] == ks;
    if brandMatches != [] {
      return Some(brandMatches[0]);
    }
    return Some(PairOf(ks[0]));
  }

  /** Agreement found among the first `j` brands holds for the whole list. */
  lemma {:induction false} AnyAgreesPrefix(bs: seq<string>, j: nat, nb: string)
    requires j <= |bs| && AnyAgrees(bs[..j], nb)
    ensures AnyAgrees(bs, nb)
    decreases |bs| - j
  {
    if j < |bs| {
      AnyAgreesStep(bs, j, nb);
      AnyAgreesPrefix(bs, j + 1, nb);
    } else {
      assert bs[..j] == bs;
    }
  }

  lemma BrandMatchesStep(ks: seq<Candidate>, i: nat, agrees: Candidate -> bool)
    requires i < |ks|
    ensures BrandMatches(ks[..i + 1], agrees) ==
      BrandMatches(ks[..i], agrees) + (if agrees(ks[i]) then [PairOf(ks[i])] else [])
  {
    assert ks[..i + 1][..i] == ks[..i];
  }

  /** No brand match means no candidate agrees, and conversely. */
  lemma {:induction false} NoBrandMatches(ks: seq<Candidate>, agrees: Candidate -> bool)
    ensures BrandMatches(ks, agrees) == [] <==> forall k :: 0 <= k < |ks| ==> !agrees(ks[k])
  {
    if ks != [] {
      var n := |ks| - 1;
      NoBrandMatches(ks[..n], agrees);
      BrandMatchesStep(ks, n, agrees);
      assert ks[..n + 1] == ks;
      if BrandMatches(ks, agrees) == [] {
        forall k | 0 <= k < |ks| ensures !agrees(ks[k]) {
          if k < n {
            assert ks[..n][k] == ks[k];
          }
        }
      }
    }
  }

  /** The first brand match is the pair of the first candidate that agrees. */
  lemma {:induction false} FirstBrandMatch(ks: seq<Candidate>, agrees: Candidate -> bool, k: nat)
    requires k < |ks| && agrees(ks[k])
    requires forall k' :: 0 <= k' < k ==> !agrees(ks[k'])
    ensures BrandMatches(ks, agrees) != [] && BrandMatches(ks, agrees)[0] == PairOf(ks[k])
  {
    var n := |ks| - 1;
    BrandMatchesStep(ks, n, agrees);
    assert ks[..n + 1] == ks;
    if k < n {
      assert ks[..n][k] == ks[k];
      FirstBrandMatch(ks[..n], agrees, k);
    } else {
      assert forall k' :: 0 <= k' < n ==> ks[..n][k'] == ks[k'];
      NoBrandMatches(ks[..n], agrees);
    }
  }

  /** Each brand match is the pair of some candidate. */
  lemma {:induction false} BrandMatchesFromCandidates(ks: seq<Candidate>, agrees: Candidate -> bool)
    ensures forall p :: p in BrandMatches(ks, agrees) ==> p in Seen(ks)
  {
    if ks != [] {
      var n := |ks| - 1;
      BrandMatchesFromCandidates(ks[..n], agrees);
      assert ks == ks[..n] + [ks[n]];
      assert Seen(ks) == Seen(ks[..n]) + {PairOf(ks[n])};
    }
  }

  /**
   * The pick is None exactly when no field matched, the sole candidate when
   * there is one, the first candidate when the material has no brand, and
   * always one of the keyword candidates.
   */
  lemma PickIsCandidate(t: Table, row: Row)
    ensures Pick(t, row).None? <==> MultiField(t, row) == []
    ensures |MultiField(t, row)| == 1 ==> Pick(t, row) == Some(PairOf(MultiField(t, row)[0]))
    ensures Pick(t, row).Some? ==> Pick(t, row).value in Seen(MultiField(t, row))
    ensures Pick(t, row).Some? && MatchNorm(FieldOr(row, CATEGORY_BRAND, BRAND)) == [] ==>
      Pick(t, row) == Some(PairOf(MultiField(t, row)[0]))
  {
    var ks := MultiField(t, row);
    if ks != [] {
      assert ks[0] in ks;
    }
    if |ks| > 1 {
      var nb := MatchNorm(FieldOr(row, CATEGORY_BRAND, BRAND));
      var agrees := (c: Candidate) => HasBrandMatch(c, nb);
      var bm := BrandMatches(ks, agrees);
      if nb != [] && bm != [] {
        BrandMatchesFromCandidates(ks, agrees);
        assert bm[0] in bm;
      }
    }
  }

  /**
   * With several candidates and a non-empty material brand, the pick is the
   * first candidate whose brands agree with it.
   */
  lemma PickByBrand(t: Table, row: Row, k: nat)
    requires |MultiField(t, row)| > 1 && MatchNorm(FieldOr(row, CATEGORY_BRAND, BRAND)) != []
    requires k < |MultiField(t, row)|
    requires HasBrandMatch(MultiField(t, row)[k], MatchNorm(FieldOr(row, CATEGORY_BRAND, BRAND)))
    requires forall k' :: 0 <= k' < k ==> !HasBrandMatch(MultiField(t, row)[k'], MatchNorm(FieldOr(row, CATEGORY_BRAND, BRAND)))
    ensures Pick(t, row) == Some(PairOf(MultiField(t, row)[k]))
  {
    var nb := MatchNorm(FieldOr(row, CATEGORY_BRAND, BRAND));
    FirstBrandMatch(MultiField(t, row), (c: Candidate) => HasBrandMatch(c, nb), k);
  }

  /** With several candidates and no brand agreement at all, the pick is the first candidate. */
  lemma PickWithoutBrandMatch(t: Table, row: Row)
    requires |MultiField(t, row)| > 1
    requires forall k :: 0 <= k < |MultiField(t, row)| ==>
      !HasBrandMatch(MultiField(t, row)[k], MatchNorm(FieldOr(row, CATEGORY_BRAND, BRAND)))
    ensures Pick(t, row) == Some(PairOf(MultiField(t, row)[0]))
  {
    var nb := MatchNorm(FieldOr(row, CATEGORY_BRAND, BRAND));
    NoBrandMatches(MultiField(t, row), (c: Candidate) => HasBrandMatch(c, nb));
  }

  /** Every candidate of the multi-field pass comes from a taxonomy entry. */
  lemma MultiFieldFromTable(t: Table, row: Row)
    ensures forall c :: c in MultiField(t, row) ==> exists p :: p in t && c == CandidateOf(p.1)
  {
    var name, model := Field(row, NAME), FieldOr(row, DRAWING_MODEL, MODEL);
    var brand, material := FieldOr(row, CATEGORY_BRAND, BRAND), Field(row, MATERIAL);
    var x := if Matches(t, name) != [] then name
             else if Matches(t, model) != [] then model
             else if Matches(t, brand) != [] then brand
             else material;
    assert MultiField(t, row) == Dedup(Matches(t, x));
    DedupKeepsPairs(Matches(t, x));
    var nn := MatchNorm(x);
    if nn != [] {
      EntryHitsSound(t, (e: Entry) => HitCount(e, nn));
    }
  }

  /** The chosen pair is the (main, sub) of a taxonomy entry. */
  lemma PickFromTable(t: Table, row: Row)
    ensures Pick(t, row).Some? ==> exists p :: p in t && Pick(t, row).value == (p.1.main, p.1.sub)
  {
    if Pick(t, row).Some? {
      PickIsCandidate(t, row);
      MultiFieldFromTable(t, row);
      var c :| c in MultiField(t, row) && PairOf(c) == Pick(t, row).value;
      var p :| p in t && c == CandidateOf(p.1);
    }
  }
}
