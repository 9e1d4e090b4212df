/**
 * String primitives the classifier relies on: Python's whitespace test,
 * `strip`, `lower`, `replace(c, "")`, substring test, `str.split` and the
 * keyword-list split `re.split(r'[、,，]', ...)`, together with the two text
 * normalisations of the engine (taxonomy keys and keyword matching).
 */
module Text {

  /** Python's `str.isspace` for one character. */
  predicate IsSpace(c: char) {
    c == ' ' || c == '\t' || c == '\n' || c == '\r' || c == '\U{000B}' || c == '\U{000C}'
    || ('\U{001C}' <= c <= '\U{001F}') || c == '\U{0085}' || c == '\U{00A0}' || c == '\U{1680}'
    || ('\U{2000}' <= c <= '\U{200A}') || c == '\U{2028}' || c == '\U{2029}' || c == '\U{202F}'
    || c == '\U{205F}' || c == '\U{3000}'
  }

  predicate IsUpper(c: char) { 'A' <= c <= 'Z' }

  /** Lower-casing of one character (ASCII letters only). */
  function LowerChar(c: char): (d: char)
    ensures !IsUpper(d)
    ensures IsSpace(d) <==> IsSpace(c)
    ensures !IsUpper(c) ==> d == c
  {
    if IsUpper(c) then (c as int + 32) as char else c
  }

  /** `s.lower()`. */
  function Lower(s: string): (r: string)
    ensures |r| == |s|
  {
    if s == [] then [] else [LowerChar(s[0])] + Lower(s[1..])
  }

  /** `s.lstrip()`. */
  function LStrip(s: string): string
  {
    if |s| > 0 && IsSpace(s[0]) then LStrip(s[1..]) else s
  }

  /** `s.rstrip()`. */
  function RStrip(s: string): string
  {
    if |s| > 0 && IsSpace(s[|s| - 1]) then RStrip(s[..|s| - 1]) else s
  }

  /** `s.strip()`. */
  function Strip(s: string): string
  {
    RStrip(LStrip(s))
  }

  /** Neither end of `s` is whitespace (the empty string qualifies). */
  predicate Trimmed(s: string) {
    s == [] || (!IsSpace(s[0]) && !IsSpace(s[|s| - 1]))
  }

  /** `s.replace(c, "")`: every occurrence of `c` deleted. */
  function Remove(s: string, c: char): (r: string)
    ensures |r| <= |s|
  {
    if s == [] then [] else (if s[0] == c then [] else [s[0]]) + Remove(s[1..], c)
  }

  /** `needle in hay` for strings. */
  predicate Contains(hay: string, needle: string)
    decreases |hay|
  {
    |needle| <= |hay| && (hay[..|needle|] == needle || Contains(hay[1..], needle))
  }

  /** `t` occurs in `s` starting at index `i`. */
  predicate OccursAt(s: string, t: string, i: int) {
    0 <= i && i + |t| <= |s| && s[i..i + |t|] == t
  }

  predicate StartsWith(s: string, prefix: string) {
    |prefix| <= |s| && s[..|prefix|] == prefix
  }

  predicate EndsWith(s: string, suffix: string) {
    |suffix| <= |s| && s[|s| - |suffix|..] == suffix
  }

  /**
   * The normalisation under which taxonomy keys are stored and candidate
   * categories are looked up: strip, lower-case, then delete spaces and tabs.
   */
  function KeyNorm(s: string): string
  {
    Remove(Remove(Lower(Strip(s)), ' '), '\t')
  }

  /**
   * The keyword matcher's normalisation: the empty (falsy) input gives "";
   * otherwise lower-case, strip, then delete spaces, tabs and newlines.
   */
  function MatchNorm(s: string): string
  {
    if s == [] then [] else Remove(Remove(Remove(Strip(Lower(s)), ' '), '\t'), '\n')
  }

  // ---------------------------------------------------------------------------
  // Splitting and joining

  /** The keyword/brand separators: 、 , and ，. */
  predicate IsListSep(c: char) { c == '、' || c == ',' || c == '，' }

  /** `re.split(r'[、,，]', s)`: the pieces between separators, always at least one. */
  function Pieces(s: string): (r: seq<string>)
    ensures |r| >= 1
  {
    if s == [] then [[]]
    else
      var rest := Pieces(s[1..]);
      if IsListSep(s[0]) then [[]] + rest else [[s[0]] + rest[0]] + rest[1..]
  }

  /** The stripped, non-empty pieces of `s`, in order: `[p.strip() for p in Pieces(s) if p.strip()]`. */
  function NonEmptyStripped(ps: seq<string>): (r: seq<string>)
    ensures |r| <= |ps|
  {
    if ps == [] then []
    else
      var t := Strip(ps[0]);
      (if t != [] then [t] else []) + NonEmptyStripped(ps[1..])
  }

  /** The keyword (or brand) list of a taxonomy cell. */
  function ItemList(cell: string): seq<string>
  {
    NonEmptyStripped(Pieces(cell))
  }

  /** Index of the first occurrence of `sep` in `s` at or after `from`, or `|s|` if none. */
  function FindFrom(s: string, sep: string, from: nat): (i: nat)
    requires from <= |s|
    ensures from <= i <= |s|
    ensures i < |s| ==> OccursAt(s, sep, i)
    ensures forall j :: from <= j < i ==> !OccursAt(s, sep, j)
    decreases |s| - from
  {
    if from + |sep| > |s| then |s|
    else if s[from..from + |sep|] == sep then from
    else FindFrom(s, sep, from + 1)
  }

  /** `s.split(sep)` for a non-empty separator. */
  function SplitOn(s: string, sep: string): (r: seq<string>)
    requires sep != []
    ensures |r| >= 1
    decreases |s|
  {
    var i := FindFrom(s, sep, 0);
    if i == |s| then [s] else [s[..i]] + SplitOn(s[i + |sep|..], sep)
  }

  /** `sep.join(parts)`. */
  function Join(parts: seq<string>, sep: string): string
  {
    if parts == [] then []
    else if |parts| == 1 then parts[0]
    else parts[0] + sep + Join(parts[1..], sep)
  }

  // ---------------------------------------------------------------------------
  // Lemmas

  lemma {:induction false} LStripShape(s: string)
    ensures |LStrip(s)| <= |s| && LStrip(s) == s[|s| - |LStrip(s)|..]
    ensures LStrip(s) == [] || !IsSpace(LStrip(s)[0])
    ensures forall i :: 0 <= i < |s| - |LStrip(s)| ==> IsSpace(s[i])
    decreases |s|
  {
    if |s| > 0 && IsSpace(s[0]) {
      LStripShape(s[1..]);
    }
  }

  lemma {:induction false} RStripShape(s: string)
    ensures |RStrip(s)| <= |s| && RStrip(s) == s[..|RStrip(s)|]
    ensures RStrip(s) == [] || !IsSpace(RStrip(s)[|RStrip(s)| - 1])
    ensures forall i :: |RStrip(s)| <= i < |s| ==> IsSpace(s[i])
    decreases |s|
  {
    if |s| > 0 && IsSpace(s[|s| - 1]) {
      RStripShape(s[..|s| - 1]);
    }
  }

  /** `RStrip` keeps a non-space first character. */
  lemma {:induction false} RStripKeepsFirst(s: string)
    requires s != [] && !IsSpace(s[0])
    ensures RStrip(s) != [] && RStrip(s)[0] == s[0]
    decreases |s|
  {
    if IsSpace(s[|s| - 1]) {
      assert |s| > 1;
      RStripKeepsFirst(s[..|s| - 1]);
    }
  }

  /**
   * `s.strip()` is the slice of `s` between its leading and trailing
   * whitespace runs, and neither of its ends is whitespace.
   */
  lemma StripTrimmed(s: string)
    ensures Trimmed(Strip(s))
    ensures |Strip(s)| <= |s|
    ensures OccursAt(s, Strip(s), |s| - |LStrip(s)|)
  {
    var l := LStrip(s);
    LStripShape(s);
    RStripShape(l);
    var r := RStrip(l);
    if r != [] {
      RStripKeepsFirst(l);
    }
    var a := |s| - |l|;
    assert r == s[a..a + |r|];
    assert OccursAt(s, r, a);
  }

  lemma {:induction false} LStripOfTrimmed(s: string)
    requires s == [] || !IsSpace(s[0])
    ensures LStrip(s) == s
  {
  }

  lemma {:induction false} RStripOfTrimmed(s: string)
    requires s == [] || !IsSpace(s[|s| - 1])
    ensures RStrip(s) == s
  {
  }

  /** Stripping a string whose ends are not whitespace changes nothing. */
  lemma StripOfTrimmed(s: string)
    requires Trimmed(s)
    ensures Strip(s) == s
  {
    LStripOfTrimmed(s);
    RStripOfTrimmed(s);
  }

  /** Whitespace before a text that starts with a non-space is all `lstrip` removes. */
  lemma {:induction false} LStripSpaces(w: string, t: string)
    requires forall i :: 0 <= i < |w| ==> IsSpace(w[i])
    requires t == [] || !IsSpace(t[0])
    ensures LStrip(w + t) == t
    decreases |w|
  {
    if w == [] {
      assert w + t == t;
      LStripOfTrimmed(t);
    } else {
      assert (w + t)[1..] == w[1..] + t;
      LStripSpaces(w[1..], t);
    }
  }

  /** Whitespace after a text that ends with a non-space is all `rstrip` removes. */
  lemma {:induction false} RStripSpaces(t: string, w: string)
    requires forall i :: 0 <= i < |w| ==> IsSpace(w[i])
    requires t == [] || !IsSpace(t[|t| - 1])
    ensures RStrip(t + w) == t
    decreases |w|
  {
    if w == [] {
      assert t + w == t;
      RStripOfTrimmed(t);
    } else {
      assert (t + w)[..|t + w| - 1] == t + w[..|w| - 1];
      RStripSpaces(t, w[..|w| - 1]);
    }
  }

  /** `strip` removes exactly the whitespace padding around a trimmed text. */
  lemma StripPadded(w1: string, t: string, w2: string)
    requires forall i :: 0 <= i < |w1| ==> IsSpace(w1[i])
    requires forall i :: 0 <= i < |w2| ==> IsSpace(w2[i])
    requires t != [] && Trimmed(t)
    ensures Strip(w1 + t + w2) == t
  {
    assert w1 + t + w2 == w1 + (t + w2);
    LStripSpaces(w1, t + w2);
    RStripSpaces(t, w2);
  }

  /** `strip` is idempotent. */
  lemma StripIdempotent(s: string)
    ensures Strip(Strip(s)) == Strip(s)
  {
    StripTrimmed(s);
    StripOfTrimmed(Strip(s));
  }

  /** `lower` works character by character. */
  lemma {:induction false} LowerAt(s: string)
    ensures forall i :: 0 <= i < |s| ==> Lower(s)[i] == LowerChar(s[i])
    decreases |s|
  {
    if s != [] {
      LowerAt(s[1..]);
      forall i | 0 < i < |s| ensures Lower(s)[i] == LowerChar(s[i]) {
        assert Lower(s)[i] == Lower(s[1..])[i - 1];
      }
    }
  }

  /** `replace(c, "")` leaves no `c` and adds no character. */
  lemma {:induction false} RemoveSubset(s: string, c: char)
    ensures c !in Remove(s, c)
    ensures forall d :: d in Remove(s, c) ==> d in s
    decreases |s|
  {
    if s != [] {
      RemoveSubset(s[1..], c);
    }
  }

  lemma {:induction false} RemoveConcat(a: string, b: string, c: char)
    ensures Remove(a + b, c) == Remove(a, c) + Remove(b, c)
    decreases |a|
  {
    if a == [] {
      assert a + b == b;
    } else {
      assert (a + b)[1..] == a[1..] + b;
      RemoveConcat(a[1..], b, c);
    }
  }

  lemma {:induction false} RemoveAbsent(s: string, c: char)
    requires c !in s
    ensures Remove(s, c) == s
    decreases |s|
  {
    if s != [] {
      RemoveAbsent(s[1..], c);
    }
  }

  /** Deleting a character that is not at either end of `s` keeps both ends. */
  lemma RemoveKeepsEnds(s: string, c: char)
    requires s != [] && s[0] != c && s[|s| - 1] != c
    ensures Remove(s, c) != [] && Remove(s, c)[0] == s[0]
    ensures Remove(s, c)[|Remove(s, c)| - 1] == s[|s| - 1]
  {
    var n := |s|;
    assert s == s[..n - 1] + [s[n - 1]];
    RemoveConcat(s[..n - 1], [s[n - 1]], c);
    assert Remove([s[n - 1]], c) == [s[n - 1]];
  }

  lemma RemovePreserves(s: string, c: char, P: char -> bool)
    requires forall i :: 0 <= i < |s| ==> P(s[i])
    ensures forall i :: 0 <= i < |Remove(s, c)| ==> P(Remove(s, c)[i])
  {
    RemoveSubset(s, c);
    forall i | 0 <= i < |Remove(s, c)|
      ensures P(Remove(s, c)[i])
    {
      assert Remove(s, c)[i] in Remove(s, c);
    }
  }

  /** Deleting characters keeps a trimmed string trimmed when the deleted character is whitespace. */
  lemma RemoveTrimmed(s: string, c: char)
    requires Trimmed(s) && IsSpace(c)
    ensures Trimmed(Remove(s, c))
  {
    if s != [] {
      RemoveKeepsEnds(s, c);
    }
  }

  lemma LowerTrimmed(s: string)
    requires Trimmed(s)
    ensures Trimmed(Lower(s))
  {
    LowerAt(s);
  }

  lemma LowerOfLower(s: string)
    requires forall i :: 0 <= i < |s| ==> !IsUpper(s[i])
    ensures Lower(s) == s
  {
    LowerAt(s);
  }

  /** Taxonomy-key normal form: trimmed, lower-case, no space or tab. */
  lemma KeyNormShape(s: string)
    ensures Trimmed(KeyNorm(s))
    ensures forall i :: 0 <= i < |KeyNorm(s)| ==> !IsUpper(KeyNorm(s)[i])
    ensures ' ' !in KeyNorm(s) && '\t' !in KeyNorm(s)
  {
    StripTrimmed(s);
    var l := Lower(Strip(s));
    LowerAt(Strip(s));
    LowerTrimmed(Strip(s));
    RemoveSubset(l, ' ');
    RemoveSubset(Remove(l, ' '), '\t');
    RemoveTrimmed(l, ' ');
    RemoveTrimmed(Remove(l, ' '), '\t');
    RemovePreserves(l, ' ', (c: char) => !IsUpper(c));
    RemovePreserves(Remove(l, ' '), '\t', (c: char) => !IsUpper(c));
  }

  /** Key normalisation is idempotent. */
  lemma KeyNormIdempotent(s: string)
    ensures KeyNorm(KeyNorm(s)) == KeyNorm(s)
  {
    var k := KeyNorm(s);
    KeyNormShape(s);
    StripOfTrimmed(k);
    LowerOfLower(k);
    RemoveAbsent(k, ' ');
    RemoveAbsent(k, '\t');
  }

  /**
   * Keyword normal form: "" for the empty input; otherwise lower-case and
   * trimmed, with no space, tab or newline left anywhere.
   */
  lemma MatchNormShape(s: string)
    ensures s == [] ==> MatchNorm(s) == []
    ensures Trimmed(MatchNorm(s))
    ensures forall i :: 0 <= i < |MatchNorm(s)| ==> !IsUpper(MatchNorm(s)[i])
    ensures ' ' !in MatchNorm(s) && '\t' !in MatchNorm(s) && '\n' !in MatchNorm(s)
  {
    if s != [] {
      var t := Strip(Lower(s));
      LowerAt(s);
      StripTrimmed(Lower(s));
      forall i | 0 <= i < |t| ensures !IsUpper(t[i]) {
        var a := |Lower(s)| - |LStrip(Lower(s))|;
        assert t[i] == Lower(s)[a + i];
      }
      RemoveTrimmed(t, ' ');
      RemoveTrimmed(Remove(t, ' '), '\t');
      RemoveTrimmed(Remove(Remove(t, ' '), '\t'), '\n');
      RemovePreserves(t, ' ', (c: char) => !IsUpper(c));
      RemovePreserves(Remove(t, ' '), '\t', (c: char) => !IsUpper(c));
      RemovePreserves(Remove(Remove(t, ' '), '\t'), '\n', (c: char) => !IsUpper(c));
      RemoveSubset(t, ' ');
      RemoveSubset(Remove(t, ' '), '\t');
      RemoveSubset(Remove(Remove(t, ' '), '\t'), '\n');
    }
  }

  /** Keyword normalisation is idempotent. */
  lemma MatchNormIdempotent(s: string)
    ensures MatchNorm(MatchNorm(s)) == MatchNorm(s)
  {
    var m := MatchNorm(s);
    MatchNormShape(s);
    if m != [] {
      LowerOfLower(m);
      StripOfTrimmed(m);
      RemoveAbsent(m, ' ');
      RemoveAbsent(m, '\t');
      RemoveAbsent(m, '\n');
    }
  }

  /** `Contains` is the substring relation. */
  lemma {:induction false} ContainsAt(hay: string, needle: string)
    ensures Contains(hay, needle) <==> exists i :: OccursAt(hay, needle, i)
    decreases |hay|
  {
    if |needle| <= |hay| && hay[..|needle|] == needle {
      assert OccursAt(hay, needle, 0);
    } else if |needle| <= |hay| && |hay| > 0 {
      ContainsAt(hay[1..], needle);
      if exists i :: OccursAt(hay, needle, i) {
        var i :| OccursAt(hay, needle, i);
        assert i > 0;
        assert OccursAt(hay[1..], needle, i - 1);
      }
      if Contains(hay[1..], needle) {
        var i :| OccursAt(hay[1..], needle, i);
        assert OccursAt(hay, needle, i + 1);
      }
    }
  }

  /** A string is contained in itself, and the empty string in every string. */
  lemma ContainsTrivia(s: string, t: string)
    ensures Contains(s, s)
    ensures Contains(t, [])
  {
    ContainsAt(s, s);
    assert OccursAt(s, s, 0);
    ContainsAt(t, []);
    assert OccursAt(t, [], 0);
  }

  /** Every listed item is non-empty and has no whitespace at either end. */
  lemma {:induction false} ItemsTrimmed(ps: seq<string>)
    ensures forall w :: w in NonEmptyStripped(ps) ==> w != [] && Trimmed(w)
    decreases |ps|
  {
    if ps != [] {
      StripTrimmed(ps[0]);
      ItemsTrimmed(ps[1..]);
    }
  }

  /** No piece of a split contains a separator. */
  lemma {:induction false} PiecesHaveNoSeparator(s: string)
    ensures forall k, i :: 0 <= k < |Pieces(s)| && 0 <= i < |Pieces(s)[k]| ==> !IsListSep(Pieces(s)[k][i])
    decreases |s|
  {
    if s != [] {
      PiecesHaveNoSeparator(s[1..]);
    }
  }

  /** The pieces, concatenated, give back `s` without its separators. */
  function DropSeparators(s: string): string
  {
    if s == [] then [] else (if IsListSep(s[0]) then [] else [s[0]]) + DropSeparators(s[1..])
  }

  function Concat(ps: seq<string>): string
  {
    if ps == [] then [] else ps[0] + Concat(ps[1..])
  }

  function CountSeparators(s: string): nat
  {
    if s == [] then 0 else (if IsListSep(s[0]) then 1 else 0) + CountSeparators(s[1..])
  }

  lemma {:induction false} PiecesReassemble(s: string)
    ensures Concat(Pieces(s)) == DropSeparators(s)
    ensures |Pieces(s)| == CountSeparators(s) + 1
    decreases |s|
  {
    if s != [] {
      var rest := Pieces(s[1..]);
      PiecesReassemble(s[1..]);
      if !IsListSep(s[0]) {
        var r := [[s[0]] + rest[0]] + rest[1..];
        assert Concat(r) == [s[0]] + rest[0] + Concat(rest[1..]);
        assert Concat(rest) == rest[0] + Concat(rest[1..]);
      } else {
        assert Concat([[]] + rest) == Concat(rest);
      }
    }
  }

  // ---------------------------------------------------------------------------
  // str.split with a separator whose first character does not recur in it

  /** `sep` cannot overlap itself: its first character appears nowhere else in it. */
  predicate Unbordered(sep: string) {
    sep != [] && forall i :: 0 < i < |sep| ==> sep[i] != sep[0]
  }

  /** In `a + sep + b`, the first occurrence of `sep` is the one between `a` and `b`. */
  lemma FirstOccurrenceBetween(a: string, sep: string, b: string)
    requires Unbordered(sep) && !Contains(a, sep)
    ensures FindFrom(a + sep + b, sep, 0) == |a|
  {
    var s := a + sep + b;
    assert OccursAt(s, sep, |a|);
    ContainsAt(a, sep);
    forall j | 0 <= j < |a|
      ensures !OccursAt(s, sep, j)
    {
      if j + |sep| <= |a| {
        assert s[j..j + |sep|] == a[j..j + |sep|];
        assert !OccursAt(a, sep, j);
      } else if j + |sep| <= |s| {
        var k := |a| - j;
        assert s[j..j + |sep|][k] == s[|a|] == sep[0];
        assert sep[k] != sep[0];
      }
    }
  }

  /** `(a + sep + b).split(sep) == [a, b]` when neither side contains `sep`. */
  lemma SplitAroundSeparator(a: string, sep: string, b: string)
    requires Unbordered(sep) && !Contains(a, sep) && !Contains(b, sep)
    ensures SplitOn(a + sep + b, sep) == [a, b]
  {
    var s := a + sep + b;
    FirstOccurrenceBetween(a, sep, b);
    assert s[..|a|] == a;
    assert s[|a| + |sep|..] == b;
    ContainsAt(b, sep);
  }

  /** A slice of a string that does not contain `sep` does not contain it either. */
  lemma ContainsSlice(s: string, t: string, a: int, sep: string)
    requires OccursAt(s, t, a) && Contains(t, sep)
    ensures Contains(s, sep)
  {
    ContainsAt(t, sep);
    ContainsAt(s, sep);
    var i :| OccursAt(t, sep, i);
    assert t == s[a..a + |t|];
    forall m | 0 <= m < |sep|
      ensures s[a + i..a + i + |sep|][m] == sep[m]
    {
      assert t[i..i + |sep|][m] == t[i + m] == s[a + i + m];
    }
    assert OccursAt(s, sep, a + i);
  }

  /** Stripping cannot create an occurrence of `sep`. */
  lemma StripKeepsAbsence(s: string, sep: string)
    requires !Contains(s, sep)
    ensures !Contains(Strip(s), sep)
  {
    StripTrimmed(s);
    if Contains(Strip(s), sep) {
      ContainsSlice(s, Strip(s), |s| - |LStrip(s)|, sep);
    }
  }
}
