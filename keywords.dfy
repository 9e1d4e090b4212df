/**
 * Keyword hits shared by both keyword matchers: a keyword hits a material
 * text when its matcher normalisation is non-empty and occurs in the
 * normalised text.
 */
module Keywords {
  import opened Text

  /** `normalized_keyword and normalized_keyword in normalized_text`. */
  predicate Hit(keyword: string, normText: string) {
    MatchNorm(keyword) != [] && Contains(normText, MatchNorm(keyword))
  }

  /** The keywords of `kws` that hit `normText`, in order. */
  function HitWords(kws: seq<string>, normText: string): (r: seq<string>)
    ensures |r| <= |kws|
  {
    if kws == [] then []
    else
      var n := |kws| - 1;
      HitWords(kws[..n], normText) + (if Hit(kws[n], normText) then [kws[n]] else [])
  }

  /** Scanning one more keyword adds one hit exactly when that keyword hits. */
  lemma HitWordsStep(kws: seq<string>, j: nat, normText: string)
    requires j < |kws|
    ensures |HitWords(kws[..j + 1], normText)| == |HitWords(kws[..j], normText)| + (if Hit(kws[j], normText) then 1 else 0)
  {
    assert kws[..j + 1][..j] == kws[..j];
  }

  /** A keyword is among the hits exactly when it is listed and hits. */
  lemma {:induction false} HitWordsExact(kws: seq<string>, normText: string)
    ensures forall w :: w in HitWords(kws, normText) <==> w in kws && Hit(w, normText)
  {
    if kws != [] {
      var n := |kws| - 1;
      HitWordsExact(kws[..n], normText);
      assert kws == kws[..n] + [kws[n]];
    }
  }

  /** Nothing hits an empty normalised text. */
  lemma {:induction false} NoHitsInEmpty(kws: seq<string>)
    ensures HitWords(kws, []) == []
  {
    if kws != [] {
      NoHitsInEmpty(kws[..|kws| - 1]);
      var w := MatchNorm(kws[|kws| - 1]);
      if w != [] {
        ContainsAt([], w);
      }
    }
  }

  /** Every piece of a cell is made of the cell's characters. */
  lemma {:induction false} PiecesChars(s: string)
    ensures forall k, i :: 0 <= k < |Pieces(s)| && 0 <= i < |Pieces(s)[k]| ==> Pieces(s)[k][i] in s
    decreases |s|
  {
    if s != [] {
      PiecesChars(s[1..]);
    }
  }

  lemma {:induction false} AllSpaceStripsEmpty(s: string)
    requires forall i :: 0 <= i < |s| ==> IsSpace(s[i])
    ensures Strip(s) == []
    decreases |s|
  {
    if s != [] {
      AllSpaceStripsEmpty(s[1..]);
    }
  }

  lemma {:induction false} BlankPiecesNoItems(ps: seq<string>)
    requires forall k, i :: 0 <= k < |ps| && 0 <= i < |ps[k]| ==> IsSpace(ps[k][i])
    ensures NonEmptyStripped(ps) == []
    decreases |ps|
  {
    if ps != [] {
      AllSpaceStripsEmpty(ps[0]);
      BlankPiecesNoItems(ps[1..]);
    }
  }

  /**
   * A cell made only of separators and whitespace (in particular an empty
   * cell) lists no keyword, so its entry can never match.
   */
  lemma SeparatorCellHasNoItems(cell: string, normText: string)
    requires forall i :: 0 <= i < |cell| ==> IsListSep(cell[i]) || IsSpace(cell[i])
    ensures ItemList(cell) == []
    ensures HitWords(ItemList(cell), normText) == []
  {
    PiecesChars(cell);
    PiecesHaveNoSeparator(cell);
    BlankPiecesNoItems(Pieces(cell));
  }
}
