/** The cache's normal form of a query: words joined by single spaces, case-folded. */
module Normalization {
  import opened Texts

  const SPACE: CodePoint := 0x20

  /** The characters Python's `str.split` separates on. */
  predicate IsSpace(c: CodePoint) {
    || 0x09 <= c <= 0x0D || 0x1C <= c <= 0x20 || c == 0x85 || c == 0xA0 || c == 0x1680
    || 0x2000 <= c <= 0x200A || c == 0x2028 || c == 0x2029 || c == 0x202F || c == 0x205F || c == 0x3000
  }

  /** Case folding maps each character on its own, as in section 3.13 of the Unicode Standard. */
  type Folding = CodePoint -> Text

  function Fold(f: Folding, t: Text): Text {
    if t == [] then [] else f(t[0]) + Fold(f, t[1..])
  }

  predicate NoSpace(t: Text) {
    forall c | c in t :: !IsSpace(c)
  }

  /** What is assumed of the folding table: it is idempotent, drops no character, and keeps whitespace
      as it is and everything else non-white. */
  ghost predicate IsFolding(f: Folding) {
    forall c: CodePoint ::
      && f(c) != [] && Fold(f, f(c)) == f(c)
      && (if IsSpace(c) then f(c) == [c] else NoSpace(f(c)))
  }

  predicate IsWord(w: Text) {
    w != [] && NoSpace(w)
  }

  /** Length of the longest prefix without whitespace. */
  function WordLength(t: Text): (n: nat)
    ensures n <= |t| && NoSpace(t[..n])
    ensures n < |t| ==> IsSpace(t[n])
  {
    if t == [] || IsSpace(t[0]) then 0
    else
      var n := WordLength(t[1..]);
      assert t[..n + 1] == [t[0]] + t[1..][..n];
      n + 1
  }

  /** `str.split()`. */
  function Split(t: Text): (words: seq<Text>)
    ensures forall w | w in words :: IsWord(w)
    decreases |t|
  {
    if t == [] then []
    else if IsSpace(t[0]) then Split(t[1..])
    else
      var n := WordLength(t);
      [t[..n]] + Split(t[n..])
  }

  /** `" ".join(words)`. */
  function Join(words: seq<Text>): Text {
    if words == [] then []
    else if |words| == 1 then words[0]
    else words[0] + [SPACE] + Join(words[1..])
  }

  function LStrip(t: Text): Text {
    if t != [] && IsSpace(t[0]) then LStrip(t[1..]) else t
  }

  function RStrip(t: Text): Text {
    if t != [] && IsSpace(t[|t| - 1]) then RStrip(t[..|t| - 1]) else t
  }

  /** `str.strip()`. */
  function Strip(t: Text): Text {
    RStrip(LStrip(t))
  }

  function Normalize(f: Folding, query: Text): Text {
    Fold(f, Join(Split(Strip(query))))
  }

  function FoldWords(f: Folding, words: seq<Text>): seq<Text> {
    seq(|words|, i requires 0 <= i < |words| => Fold(f, words[i]))
  }

  // ---------------------------------------------------------------------------
  // Stripping first changes nothing
  // ---------------------------------------------------------------------------

  lemma {:induction false} SplitIgnoresLStrip(t: Text)
    ensures Split(LStrip(t)) == Split(t)
  {
    if t != [] && IsSpace(t[0]) {
      SplitIgnoresLStrip(t[1..]);
    }
  }

  lemma {:induction false} WordLengthBeforeSpace(t: Text, c: CodePoint)
    requires IsSpace(c)
    ensures WordLength(t + [c]) == WordLength(t)
  {
    if t != [] && !IsSpace(t[0]) {
      assert (t + [c])[1..] == t[1..] + [c];
      WordLengthBeforeSpace(t[1..], c);
    }
  }

  lemma {:induction false} SplitIgnoresTrailingSpace(t: Text, c: CodePoint)
    requires IsSpace(c)
    ensures Split(t + [c]) == Split(t)
    decreases |t|
  {
    var s := t + [c];
    if t == [] {
      assert s[1..] == [];
    } else if IsSpace(t[0]) {
      assert s[1..] == t[1..] + [c];
      SplitIgnoresTrailingSpace(t[1..], c);
    } else {
      var n := WordLength(t);
      WordLengthBeforeSpace(t, c);
      assert s[..n] == t[..n] && s[n..] == t[n..] + [c];
      SplitIgnoresTrailingSpace(t[n..], c);
    }
  }

  lemma {:induction false} SplitIgnoresRStrip(t: Text)
    ensures Split(RStrip(t)) == Split(t)
  {
    if t != [] && IsSpace(t[|t| - 1]) {
      var c := t[|t| - 1];
      assert t == t[..|t| - 1] + [c];
      SplitIgnoresTrailingSpace(t[..|t| - 1], c);
      SplitIgnoresRStrip(t[..|t| - 1]);
    }
  }

  /** The leading `strip` is redundant. */
  lemma StripIsRedundant(f: Folding, query: Text)
    ensures Normalize(f, query) == Fold(f, Join(Split(query)))
  {
    SplitIgnoresLStrip(query);
    SplitIgnoresRStrip(LStrip(query));
  }

  // ---------------------------------------------------------------------------
  // Splitting undoes joining
  // ---------------------------------------------------------------------------

  lemma {:induction false} WordLengthOfWord(w: Text, tail: Text)
    requires NoSpace(w) && (tail == [] || IsSpace(tail[0]))
    ensures WordLength(w + tail) == |w|
  {
    if w == [] {
      assert w + tail == tail;
    } else {
      assert (w + tail)[1..] == w[1..] + tail;
      WordLengthOfWord(w[1..], tail);
    }
  }

  lemma SplitWord(w: Text, tail: Text)
    requires IsWord(w) && (tail == [] || IsSpace(tail[0]))
    ensures Split(w + tail) == [w] + Split(tail)
  {
    WordLengthOfWord(w, tail);
    assert (w + tail)[..|w|] == w && (w + tail)[|w|..] == tail;
  }

  lemma {:induction false} SplitUndoesJoin(words: seq<Text>)
    requires forall w | w in words :: IsWord(w)
    ensures Split(Join(words)) == words
  {
    if |words| == 1 {
      SplitWord(words[0], []);
      assert words[0] + [] == words[0];
    } else if |words| > 1 {
      var rest := Join(words[1..]);
      var tail := [SPACE] + rest;
      assert Join(words) == words[0] + tail;
      SplitWord(words[0], tail);
      assert tail[1..] == rest;
      SplitUndoesJoin(words[1..]);
    }
  }

  // ---------------------------------------------------------------------------
  // Folding acts word by word
  // ---------------------------------------------------------------------------

  lemma {:induction false} FoldAppends(f: Folding, a: Text, b: Text)
    ensures Fold(f, a + b) == Fold(f, a) + Fold(f, b)
  {
    if a == [] {
      assert a + b == b;
    } else {
      assert (a + b)[1..] == a[1..] + b;
      FoldAppends(f, a[1..], b);
    }
  }

  lemma {:induction false} FoldKeepsWords(f: Folding, w: Text)
    requires IsFolding(f) && NoSpace(w)
    ensures NoSpace(Fold(f, w)) && (w != [] ==> Fold(f, w) != [])
    ensures Fold(f, Fold(f, w)) == Fold(f, w)
  {
    if w != [] {
      FoldKeepsWords(f, w[1..]);
      FoldAppends(f, f(w[0]), Fold(f, w[1..]));
      assert !IsSpace(w[0]);
    }
  }

  lemma {:induction false} FoldOfJoin(f: Folding, words: seq<Text>)
    requires IsFolding(f)
    ensures Fold(f, Join(words)) == Join(FoldWords(f, words))
  {
    var folded := FoldWords(f, words);
    if |words| > 1 {
      var rest := Join(words[1..]);
      FoldOfJoin(f, words[1..]);
      assert folded[1..] == FoldWords(f, words[1..]);
      FoldAppends(f, words[0] + [SPACE], rest);
      FoldAppends(f, words[0], [SPACE]);
      assert f(SPACE) == [SPACE];
      assert Fold(f, [SPACE]) == f(SPACE) + Fold(f, [SPACE][1..]);
    }
  }

  lemma NormalizeIsJoin(f: Folding, query: Text)
    requires IsFolding(f)
    ensures var folded := FoldWords(f, Split(query));
            && (forall w | w in folded :: IsWord(w))
            && Normalize(f, query) == Join(folded)
            && Split(Normalize(f, query)) == folded
  {
    var words := Split(query);
    var folded := FoldWords(f, words);
    StripIsRedundant(f, query);
    FoldOfJoin(f, words);
    forall w | w in folded
      ensures IsWord(w)
    {
      var i :| 0 <= i < |folded| && folded[i] == w;
      assert words[i] in words;
      FoldKeepsWords(f, words[i]);
    }
    SplitUndoesJoin(folded);
  }

  /** The normal form is canonical: it is its own normal form, and two queries share it exactly when
      their case-folded word lists are equal. */
  lemma NormalFormIsCanonical(f: Folding, a: Text, b: Text)
    requires IsFolding(f)
    ensures Normalize(f, Normalize(f, a)) == Normalize(f, a)
    ensures Normalize(f, a) == Normalize(f, b) <==> FoldWords(f, Split(a)) == FoldWords(f, Split(b))
  {
    NormalizeIsJoin(f, a);
    NormalizeIsJoin(f, b);
    NormalizeIsJoin(f, Normalize(f, a));
    var words := Split(a);
    var folded := FoldWords(f, words);
    forall i | 0 <= i < |folded|
      ensures Fold(f, folded[i]) == folded[i]
    {
      assert words[i] in words;
      FoldKeepsWords(f, words[i]);
    }
    assert FoldWords(f, folded) == folded;
  }

  // ---------------------------------------------------------------------------
  // Splitting, folding and joining, each on its own
  // ---------------------------------------------------------------------------

  /** The whitespace of `str.split`: the White_Space characters of the Unicode Standard and the four separators
      U+001C to U+001F. */
  const SPACES: set<int> := {
    0x09, 0x0A, 0x0B, 0x0C, 0x0D, 0x1C, 0x1D, 0x1E, 0x1F, 0x20, 0x85, 0xA0, 0x1680,
    0x2000, 0x2001, 0x2002, 0x2003, 0x2004, 0x2005, 0x2006, 0x2007, 0x2008, 0x2009, 0x200A,
    0x2028, 0x2029, 0x202F, 0x205F, 0x3000}

  lemma SpacesAreThese(c: CodePoint)
    ensures IsSpace(c) <==> c in SPACES
  {
  }

  /** Splitting is determined by this: no words in nothing, one in a word, and every whitespace character separates
      what is before it from what is after it. */
  lemma {:induction false} SplitLaw(a: Text, c: CodePoint, b: Text)
    requires c in SPACES
    ensures Split([]) == []
    ensures a != [] && (forall x | x in a :: x !in SPACES) ==> Split(a) == [a]
    ensures Split(a + [c] + b) == Split(a) + Split(b)
    decreases |a|
  {
    SpacesAreThese(c);
    forall x | x in a
      ensures IsSpace(x) <==> x in SPACES
    {
      SpacesAreThese(x);
    }
    hide SPACES, IsSpace;
    var s := a + [c] + b;
    if a == [] {
      assert s[1..] == b;
    } else if IsSpace(a[0]) {
      assert s[1..] == a[1..] + [c] + b;
      SplitLaw(a[1..], c, b);
    } else {
      var n := WordLength(a);
      assert a == a[..n] + a[n..] && a[..n] != [];
      if n == |a| {
        assert a[..n] == a && s == a + ([c] + b) && ([c] + b)[1..] == b;
        SplitWord(a, [c] + b);
        SplitWord(a, []);
        assert a + [] == a;
      } else {
        assert s == a[..n] + (a[n..] + [c] + b);
        SplitWord(a[..n], a[n..] + [c] + b);
        SplitLaw(a[n..], c, b);
      }
    }
  }

  /** Folding is determined by this: each character is replaced by its image. */
  lemma FoldLaw(f: Folding, a: Text, c: CodePoint, b: Text)
    ensures Fold(f, []) == [] && Fold(f, [c]) == f(c)
    ensures Fold(f, a + [c] + b) == Fold(f, a) + f(c) + Fold(f, b)
  {
    assert Fold(f, [c]) == f(c) + Fold(f, [c][1..]);
    FoldAppends(f, a + [c], b);
    FoldAppends(f, a, [c]);
  }

  /** No whitespace at either end, and none but single spaces in between. */
  predicate Tidy(t: Text) {
    && (t != [] ==> !IsSpace(t[0]) && !IsSpace(t[|t| - 1]))
    && (forall i | 0 <= i < |t| && IsSpace(t[i]) :: t[i] == 0x20)
    && (forall i | 0 < i < |t| && IsSpace(t[i]) :: !IsSpace(t[i - 1]))
  }

  lemma {:induction false} JoinIsTidy(words: seq<Text>)
    requires forall w | w in words :: IsWord(w)
    ensures Tidy(Join(words)) && (words != [] ==> Join(words) != [])
  {
    hide IsSpace;
    if |words| == 1 {
      WordIsTidy(words[0]);
    } else if |words| > 1 {
      var rest := Join(words[1..]);
      assert words[0] in words;
      JoinIsTidy(words[1..]);
      WordIsTidy(words[0]);
      SpaceIsSpace();
      TidyMeets(words[0], rest);
    }
  }

  lemma SpaceIsSpace()
    ensures IsSpace(SPACE) && SPACE == 0x20
  {
  }

  lemma WordIsTidy(w: Text)
    requires IsWord(w)
    ensures Tidy(w)
  {
    hide IsSpace;
    assert forall i | 0 <= i < |w| :: w[i] in w;
  }

  lemma TidyMeets(a: Text, b: Text)
    requires Tidy(a) && Tidy(b) && a != [] && b != [] && IsSpace(SPACE) && SPACE == 0x20
    ensures Tidy(a + [SPACE] + b)
  {
    hide IsSpace;
    var t, n := a + [SPACE] + b, |a|;
    assert forall i | 0 <= i < n :: t[i] == a[i];
    assert t[n] == SPACE;
    assert forall i | n < i < |t| :: t[i] == b[i - n - 1];
    forall i | 0 < i < |t| && IsSpace(t[i])
      ensures !IsSpace(t[i - 1])
    {
      if n + 1 < i {
        assert t[i - 1] == b[i - 1 - n - 1];
      }
    }
  }

  /** A normal form is tidy, and its words are the query's, case-folded and in order. */
  lemma NormalFormIsTidy(f: Folding, query: Text)
    requires IsFolding(f)
    ensures Tidy(Normalize(f, query))
    ensures Split(Normalize(f, query)) == FoldWords(f, Split(query))
  {
    NormalizeIsJoin(f, query);
    JoinIsTidy(FoldWords(f, Split(query)));
  }

  /** Queries that differ only in characters the table maps to the same image. */
  predicate SameUpToCase(f: Folding, a: Text, b: Text) {
    |a| == |b| && forall i | 0 <= i < |a| :: f(a[i]) == f(b[i])
  }

  lemma SpacesAgree(f: Folding, c: CodePoint, d: CodePoint)
    requires IsFolding(f) && f(c) == f(d)
    ensures IsSpace(c) == IsSpace(d)
  {
    hide IsSpace;
    assert IsSpace(c) ==> c in f(d);
    assert IsSpace(d) ==> d in f(c);
  }

  lemma {:induction false} SameWordLength(f: Folding, a: Text, b: Text)
    requires IsFolding(f) && SameUpToCase(f, a, b)
    ensures WordLength(a) == WordLength(b)
  {
    hide IsSpace, IsFolding;
    if a != [] {
      assert f(a[0]) == f(b[0]);
      SpacesAgree(f, a[0], b[0]);
      TailsAgree(f, a, b, 1);
      SameWordLength(f, a[1..], b[1..]);
    }
  }

  lemma TailsAgree(f: Folding, a: Text, b: Text, n: nat)
    requires SameUpToCase(f, a, b) && n <= |a|
    ensures SameUpToCase(f, a[n..], b[n..]) && SameUpToCase(f, a[..n], b[..n])
  {
  }

  lemma {:induction false} SameFold(f: Folding, a: Text, b: Text)
    requires SameUpToCase(f, a, b)
    ensures Fold(f, a) == Fold(f, b)
  {
    if a != [] {
      assert f(a[0]) == f(b[0]);
      TailsAgree(f, a, b, 1);
      SameFold(f, a[1..], b[1..]);
    }
  }

  lemma {:induction false} SameWords(f: Folding, a: Text, b: Text)
    requires IsFolding(f) && SameUpToCase(f, a, b)
    ensures FoldWords(f, Split(a)) == FoldWords(f, Split(b))
    decreases |a|
  {
    hide IsSpace, IsFolding;
    if a != [] {
      assert f(a[0]) == f(b[0]);
      SpacesAgree(f, a[0], b[0]);
      if IsSpace(a[0]) {
        TailsAgree(f, a, b, 1);
        SameWords(f, a[1..], b[1..]);
      } else {
        var n := WordLength(a);
        SameWordLength(f, a, b);
        TailsAgree(f, a, b, n);
        SameFold(f, a[..n], b[..n]);
        SameWords(f, a[n..], b[n..]);
        assert FoldWords(f, Split(a)) == [Fold(f, a[..n])] + FoldWords(f, Split(a[n..]));
        assert FoldWords(f, Split(b)) == [Fold(f, b[..n])] + FoldWords(f, Split(b[n..]));
      }
    }
  }

  /** Case does not matter: such queries have the same normal form, hence the same cache entry. */
  lemma CaseDoesNotMatter(f: Folding, a: Text, b: Text)
    requires IsFolding(f) && SameUpToCase(f, a, b)
    ensures Normalize(f, a) == Normalize(f, b)
  {
    SameWords(f, a, b);
    NormalFormIsCanonical(f, a, b);
  }

  lemma SameSplit(f: Folding, a: Text, b: Text)
    requires IsFolding(f) && Split(a) == Split(b)
    ensures Normalize(f, a) == Normalize(f, b)
  {
    NormalFormIsCanonical(f, a, b);
  }

  lemma SplitAt(a: Text, c: CodePoint, b: Text)
    requires c in SPACES
    ensures Split(a + [c] + b) == Split(a) + Split(b) && Split([]) == []
  {
    SplitLaw(a, c, b);
  }

  /** Neither does whitespace: any of it does as well as a single space, repeating it changes nothing, and at the
      ends it does nothing. */
  lemma WhitespaceDoesNotMatter(f: Folding, a: Text, c: CodePoint, b: Text)
    requires IsFolding(f) && c in SPACES
    ensures Normalize(f, a + [c] + b) == Normalize(f, a + [SPACE] + b)
    ensures Normalize(f, a + [c] + ([c] + b)) == Normalize(f, a + [c] + b)
    ensures Normalize(f, [] + [c] + a) == Normalize(f, a) && Normalize(f, a + [c] + []) == Normalize(f, a)
  {
    SpaceIsSpace();
    SpacesAreThese(SPACE);
    hide IsFolding, Split, Normalize, SPACES;
    SplitAt(a, c, b);
    SplitAt(a, SPACE, b);
    SplitAt(a, c, [c] + b);
    SplitAt([], c, b);
    SplitAt(a, c, []);
    SplitAt([], c, a);
    assert [] + [c] + b == [c] + b;
    SameSplit(f, a + [c] + b, a + [SPACE] + b);
    SameSplit(f, a + [c] + ([c] + b), a + [c] + b);
    SameSplit(f, [] + [c] + a, a);
    SameSplit(f, a + [c] + [], a);
  }
}
