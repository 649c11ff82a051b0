/**
 * The category picker: `normalizeCategory`, the guards in front of the
 * create-category request, and the sorted list it displays.
 */
module CategorySelect {
  import opened Wrappers
  import opened Strings
  import opened Toasts

  datatype Category = Category(id: int, name: string)

  /** The only whitespace is the plain space, and no two spaces are adjacent. */
  predicate SingleSpaced(s: string) {
    && (forall i :: 0 <= i < |s| && IsWhitespace(s[i]) ==> s[i] == ' ')
    && (forall i :: 0 <= i < |s| - 1 && s[i] == ' ' ==> s[i + 1] != ' ')
  }

  /** Neither the first nor the last character is whitespace. */
  predicate NoEdgeWhitespace(s: string) {
    s == [] || (!IsWhitespace(s[0]) && !IsWhitespace(s[|s| - 1]))
  }

  /** Every character is already lower case. */
  predicate Lowered(s: string) {
    forall i :: 0 <= i < |s| ==> LowerChar(s[i]) == s[i]
  }

  /** The characters of `s` that are not whitespace, in order. */
  function NonWhitespace(s: string): string {
    if s == [] then []
    else (if IsWhitespace(s[0]) then [] else [s[0]]) + NonWhitespace(s[1..])
  }

  /** Dropping a whitespace prefix keeps every other character. */
  lemma {:induction false} NonWhitespaceSkip(s: string, k: nat)
    requires k <= |s| && forall i :: 0 <= i < k ==> IsWhitespace(s[i])
    ensures NonWhitespace(s[k..]) == NonWhitespace(s)
  {
    if k > 0 {
      assert s[1..][k - 1..] == s[k..];
      NonWhitespaceSkip(s[1..], k - 1);
    }
  }

  lemma NonWhitespaceCons(c: char, s: string)
    ensures NonWhitespace([c] + s) == (if IsWhitespace(c) then [] else [c]) + NonWhitespace(s)
  {
    assert ([c] + s)[1..] == s;
  }

  /** The longest prefix of `s` holding no whitespace. */
  function LeadingWord(s: string): (r: string)
    ensures |r| <= |s| && r == s[..|r|]
    ensures s != [] && !IsWhitespace(s[0]) ==> |r| >= 1
  {
    if s == [] || IsWhitespace(s[0]) then [] else [s[0]] + LeadingWord(s[1..])
  }

  /** The words of `s`: its maximal runs of non-whitespace characters, in order. */
  function Words(s: string): seq<string>
    decreases |s|
  {
    if s == [] then []
    else if IsWhitespace(s[0]) then Words(s[1..])
    else
      var w := LeadingWord(s);
      [w] + Words(s[|w|..])
  }

  /** Whitespace in front of a text adds no word. */
  lemma WordsSpaceCons(c: char, t: string)
    requires IsWhitespace(c)
    ensures Words([c] + t) == Words(t)
  {
    assert ([c] + t)[1..] == t;
  }

  /** Dropping a whitespace prefix keeps the words. */
  lemma {:induction false} WordsSkip(s: string, k: nat)
    requires k <= |s| && forall i :: 0 <= i < k ==> IsWhitespace(s[i])
    ensures Words(s[k..]) == Words(s)
  {
    if k > 0 {
      assert s[1..][k - 1..] == s[k..];
      WordsSkip(s[1..], k - 1);
    }
  }

  /**
   * A non-whitespace character in front of a text starts a word of its own when
   * the text is empty or starts with whitespace, and otherwise joins its first word.
   */
  lemma WordsCharCons(c: char, t: string)
    requires !IsWhitespace(c)
    ensures t == [] || IsWhitespace(t[0]) ==> Words([c] + t) == [[c]] + Words(t)
    ensures t != [] && !IsWhitespace(t[0]) ==>
      Words(t) != [] && Words(t)[0] == LeadingWord(t) && Words([c] + t) == [[c] + Words(t)[0]] + Words(t)[1..]
  {
    var s := [c] + t;
    assert s[1..] == t;
    var w := LeadingWord(t);
    assert LeadingWord(s) == [c] + w;
    assert s[|w| + 1..] == t[|w|..];
  }

  /**
   * What `.replace(/\s+/g, ' ')` promises of its result `r` on input `s`: `r` is
   * single-spaced and has the same words as `s`, so the same non-whitespace
   * characters in the same order, with each run of whitespace between them now
   * one space;
   * it is empty, starts with whitespace and ends with whitespace exactly when `s`
   * does, and lower case survives.
   */
  predicate CollapseOf(s: string, r: string) {
    SingleSpaced(r) && SameText(s, r) && SameEdges(s, r) && (Lowered(s) ==> Lowered(r))
  }

  /** The same non-whitespace characters in order, grouped into the same words. */
  predicate SameText(s: string, r: string) {
    NonWhitespace(r) == NonWhitespace(s) && Words(r) == Words(s)
  }

  /** Empty together; whitespace at each edge together; a non-whitespace first character kept. */
  predicate SameEdges(s: string, r: string) {
    && (r == [] <==> s == [])
    && (s != [] ==> (IsWhitespace(r[0]) <==> IsWhitespace(s[0])))
    && (s != [] && !IsWhitespace(s[0]) ==> r[0] == s[0])
    && (s != [] ==> (IsWhitespace(r[|r| - 1]) <==> IsWhitespace(s[|s| - 1])))
  }

  lemma LoweredSuffix(s: string, k: nat)
    requires Lowered(s) && k <= |s|
    ensures Lowered(s[k..])
  {
    forall i | 0 <= i < |s| - k ensures LowerChar(s[k..][i]) == s[k..][i] {
      assert s[k..][i] == s[k + i];
    }
  }

  lemma LoweredCons(c: char, x: string)
    requires LowerChar(c) == c && Lowered(x)
    ensures Lowered([c] + x)
  {
    var r := [c] + x;
    forall i | 0 <= i < |r| ensures LowerChar(r[i]) == r[i] {
      if i > 0 {
        assert r[i] == x[i - 1];
      }
    }
  }

  /** One character in front of a single-spaced text keeps it single-spaced unless both are spaces. */
  lemma SingleSpacedCons(c: char, x: string)
    requires SingleSpaced(x) && (IsWhitespace(c) ==> c == ' ')
    requires c == ' ' ==> x == [] || !IsWhitespace(x[0])
    ensures SingleSpaced([c] + x)
  {
    var r := [c] + x;
    forall i | 0 <= i < |r| && IsWhitespace(r[i]) ensures r[i] == ' ' {
      if i > 0 {
        assert r[i] == x[i - 1];
      }
    }
    forall i | 0 <= i < |r| - 1 && r[i] == ' ' ensures r[i + 1] != ' ' {
      assert r[i + 1] == x[i];
      if i > 0 {
        assert r[i] == x[i - 1];
      }
    }
  }

  /** A leading run of whitespace becomes one space in front of the collapsed rest. */
  lemma CollapseSpaceStep(s: string, x: string)
    requires s != [] && IsWhitespace(s[0])
    requires CollapseOf(TrimStart(s), x)
    ensures CollapseOf(s, [' '] + x)
  {
    SpaceStepText(s, x);
    SpaceStepEdges(s, x);
    SingleSpacedCons(' ', x);
    if Lowered(s) {
      LoweredSuffix(s, |s| - |TrimStart(s)|);
      LoweredCons(' ', x);
    }
  }

  lemma SpaceStepText(s: string, x: string)
    requires s != [] && IsWhitespace(s[0])
    requires SameText(TrimStart(s), x)
    ensures SameText(s, [' '] + x)
  {
    var rest := TrimStart(s);
    NonWhitespaceSkip(s, |s| - |rest|);
    NonWhitespaceCons(' ', x);
    WordsSkip(s, |s| - |rest|);
    WordsSpaceCons(' ', x);
  }

  lemma SpaceStepEdges(s: string, x: string)
    requires s != [] && IsWhitespace(s[0])
    requires SameEdges(TrimStart(s), x)
    ensures SameEdges(s, [' '] + x)
  {
    var rest := TrimStart(s);
    var r := [' '] + x;
    assert IsWhitespace(r[0]);
    if x == [] {
      assert rest == [];
      assert IsWhitespace(s[|s| - 1]);
    } else {
      assert r[|r| - 1] == x[|x| - 1];
      assert rest[|rest| - 1] == s[|s| - 1];
    }
  }

  /** A non-whitespace character is kept in front of the collapsed rest. */
  lemma CollapseCharStep(s: string, x: string)
    requires s != [] && !IsWhitespace(s[0])
    requires CollapseOf(s[1..], x)
    ensures CollapseOf(s, [s[0]] + x)
  {
    CharStepText(s, x);
    SingleSpacedCons(s[0], x);
    if Lowered(s) {
      LoweredSuffix(s, 1);
      LoweredCons(s[0], x);
    }
  }

  lemma CharStepText(s: string, x: string)
    requires s != [] && !IsWhitespace(s[0])
    requires SameText(s[1..], x) && SameEdges(s[1..], x)
    ensures SameText(s, [s[0]] + x)
  {
    NonWhitespaceCons(s[0], x);
    NonWhitespaceCons(s[0], s[1..]);
    assert s == [s[0]] + s[1..];
    WordsCharCons(s[0], x);
    WordsCharCons(s[0], s[1..]);
  }

  /** `.replace(/\s+/g, ' ')`: every maximal run of whitespace becomes one space. */
  function CollapseWhitespace(s: string): (r: string)
    ensures CollapseOf(s, r)
    decreases |s|
  {
    if s == [] then []
    else if IsWhitespace(s[0]) then
      var x := CollapseWhitespace(TrimStart(s));
      CollapseSpaceStep(s, x);
      [' '] + x
    else
      var x := CollapseWhitespace(s[1..]);
      CollapseCharStep(s, x);
      [s[0]] + x
  }

  /** Two single-spaced texts with the same words, the same emptiness and the same kind of edges. */
  predicate SameSpacing(r1: string, r2: string) {
    && SingleSpaced(r1) && SingleSpaced(r2)
    && Words(r1) == Words(r2)
    && (r1 == [] <==> r2 == [])
    && (r1 != [] && r2 != [] ==>
          (IsWhitespace(r1[0]) <==> IsWhitespace(r2[0]))
          && (IsWhitespace(r1[|r1| - 1]) <==> IsWhitespace(r2[|r2| - 1])))
  }

  lemma SingleSpacedTail(r: string)
    requires SingleSpaced(r) && r != []
    ensures SingleSpaced(r[1..])
    ensures IsWhitespace(r[0]) ==> r[0] == ' ' && (r[1..] == [] || !IsWhitespace(r[1..][0]))
  {
    var t := r[1..];
    forall i | 0 <= i < |t| ensures t[i] == r[i + 1] {}
  }

  /** A text starting with a non-whitespace character has a first word. */
  lemma WordsNonEmpty(t: string)
    requires t != [] && !IsWhitespace(t[0])
    ensures Words(t) != []
  {
  }

  /** A single-spaced text whose first character is a space and whose last is not has a word after that space. */
  lemma WordAfterSpace(t: string)
    requires SingleSpaced(t) && t != [] && IsWhitespace(t[0]) && !IsWhitespace(t[|t| - 1])
    ensures Words(t) != []
  {
    SingleSpacedTail(t);
    assert t[1..] != [];
    WordsSpaceCons(t[0], t[1..]);
    assert t == [t[0]] + t[1..];
    WordsNonEmpty(t[1..]);
  }

  /** After a leading space, the rests of two such texts are still alike. */
  lemma SpaceHeadTails(r1: string, r2: string)
    requires SameSpacing(r1, r2) && r1 != [] && IsWhitespace(r1[0])
    ensures r1[0] == r2[0] && SameSpacing(r1[1..], r2[1..])
  {
    var t1, t2 := r1[1..], r2[1..];
    assert r1 == [r1[0]] + t1 && r2 == [r2[0]] + t2;
    SingleSpacedTail(r1);
    SingleSpacedTail(r2);
    WordsSpaceCons(r1[0], t1);
    WordsSpaceCons(r2[0], t2);
    if t1 == [] && t2 != [] {
      WordsNonEmpty(t2);
      assert false;
    }
    if t2 == [] && t1 != [] {
      WordsNonEmpty(t1);
      assert false;
    }
    if t1 != [] {
      assert t1[|t1| - 1] == r1[|r1| - 1] && t2[|t2| - 1] == r2[|r2| - 1];
    }
  }

  /** A character followed by whitespace, or by nothing, is a word of one character. */
  lemma LoneFirstWord(r: string)
    requires r != [] && !IsWhitespace(r[0]) && (r[1..] == [] || IsWhitespace(r[1..][0]))
    ensures Words(r) != [] && |Words(r)[0]| == 1
  {
    assert r == [r[0]] + r[1..];
    WordsCharCons(r[0], r[1..]);
  }

  /** Two non-whitespace characters in a row start a word of at least two characters. */
  lemma JoinedFirstWord(r: string)
    requires r != [] && !IsWhitespace(r[0]) && r[1..] != [] && !IsWhitespace(r[1..][0])
    ensures Words(r) != [] && |Words(r)[0]| >= 2
  {
    assert r == [r[0]] + r[1..];
    WordsCharCons(r[0], r[1..]);
    assert |LeadingWord(r[1..])| >= 1;
  }

  /** A character followed by a word break (or nothing) in one text is so in the other. */
  lemma CharHeadSameBreak(r1: string, r2: string)
    requires SameSpacing(r1, r2) && r1 != [] && !IsWhitespace(r1[0])
    ensures (r1[1..] == [] || IsWhitespace(r1[1..][0])) <==> (r2[1..] == [] || IsWhitespace(r2[1..][0]))
  {
    var t1, t2 := r1[1..], r2[1..];
    assert r1 == [r1[0]] + t1 && r2 == [r2[0]] + t2;
    assert !IsWhitespace(r2[0]);
    WordsCharCons(r1[0], t1);
    WordsCharCons(r2[0], t2);
    var break1 := t1 == [] || IsWhitespace(t1[0]);
    var break2 := t2 == [] || IsWhitespace(t2[0]);
    if break1 && !break2 {
      LoneFirstWord(r1);
      JoinedFirstWord(r2);
      assert false;
    }
    if break2 && !break1 {
      LoneFirstWord(r2);
      JoinedFirstWord(r1);
      assert false;
    }
  }

  /** A character that forms a word of its own: the rests are alike. */
  lemma CharHeadBreakTails(r1: string, r2: string)
    requires SameSpacing(r1, r2) && r1 != [] && !IsWhitespace(r1[0])
    requires r1[1..] == [] || IsWhitespace(r1[1..][0])
    requires r2[1..] == [] || IsWhitespace(r2[1..][0])
    ensures r1[0] == r2[0] && SameSpacing(r1[1..], r2[1..])
  {
    var t1, t2 := r1[1..], r2[1..];
    assert r1 == [r1[0]] + t1 && r2 == [r2[0]] + t2;
    SingleSpacedTail(r1);
    SingleSpacedTail(r2);
    WordsCharCons(r1[0], t1);
    WordsCharCons(r2[0], t2);
    assert [r1[0]] == Words(r1)[0] == Words(r2)[0] == [r2[0]];
    assert Words(t1) == Words(r1)[1..] == Words(r2)[1..] == Words(t2);
    if t1 == [] && t2 != [] {
      WordAfterSpace(t2);
      assert false;
    }
    if t2 == [] && t1 != [] {
      WordAfterSpace(t1);
      assert false;
    }
    if t1 != [] {
      assert t1[|t1| - 1] == r1[|r1| - 1] && t2[|t2| - 1] == r2[|r2| - 1];
    }
  }

  /** A character that starts a longer word: the rests are alike. */
  lemma CharHeadJoinTails(r1: string, r2: string)
    requires SameSpacing(r1, r2) && r1 != [] && !IsWhitespace(r1[0])
    requires r1[1..] != [] && !IsWhitespace(r1[1..][0])
    requires r2[1..] != [] && !IsWhitespace(r2[1..][0])
    ensures r1[0] == r2[0] && SameSpacing(r1[1..], r2[1..])
  {
    var t1, t2 := r1[1..], r2[1..];
    assert r1 == [r1[0]] + t1 && r2 == [r2[0]] + t2;
    SingleSpacedTail(r1);
    SingleSpacedTail(r2);
    WordsCharCons(r1[0], t1);
    WordsCharCons(r2[0], t2);
    assert r1[0] == Words(r1)[0][0] == Words(r2)[0][0] == r2[0];
    assert Words(t1)[0] == Words(r1)[0][1..] == Words(r2)[0][1..] == Words(t2)[0];
    assert Words(t1) == [Words(t1)[0]] + Words(r1)[1..];
    assert Words(t2) == [Words(t2)[0]] + Words(r2)[1..];
    assert t1[|t1| - 1] == r1[|r1| - 1] && t2[|t2| - 1] == r2[|r2| - 1];
  }

  /** Texts alike in spacing, words and edges are equal. */
  lemma {:induction false} SameSpacingEqual(r1: string, r2: string)
    requires SameSpacing(r1, r2)
    ensures r1 == r2
    decreases |r1|
  {
    if r1 != [] {
      if IsWhitespace(r1[0]) {
        SpaceHeadTails(r1, r2);
      } else {
        CharHeadSameBreak(r1, r2);
        if r1[1..] == [] || IsWhitespace(r1[1..][0]) {
          CharHeadBreakTails(r1, r2);
        } else {
          CharHeadJoinTails(r1, r2);
        }
      }
      SameSpacingEqual(r1[1..], r2[1..]);
      assert r1 == [r1[0]] + r1[1..] && r2 == [r2[0]] + r2[1..];
    }
  }

  /** The collapse contract leaves no freedom: whatever satisfies it is the collapse. */
  lemma CollapseOfUnique(s: string, r: string)
    requires CollapseOf(s, r)
    ensures r == CollapseWhitespace(s)
  {
    var c := CollapseWhitespace(s);
    assert SameSpacing(r, c);
    SameSpacingEqual(r, c);
  }

  /** `word.charAt(0).toUpperCase() + word.slice(1)` */
  function Capitalize(word: string): string {
    if word == [] then [] else [UpperChar(word[0])] + word[1..]
  }

  function CapitalizeAll(words: seq<string>): (r: seq<string>)
    ensures |r| == |words|
    ensures forall k :: 0 <= k < |words| ==> r[k] == Capitalize(words[k])
  {
    seq(|words|, k requires 0 <= k < |words| => Capitalize(words[k]))
  }

  /**
   * `normalizeCategory`: trim, lower-case, collapse whitespace, split on spaces,
   * capitalise each word, join. Only the case of letters changes after the
   * collapse: lower-casing the result gives back the collapsed, lower-cased input.
   */
  function NormalizeCategory(name: string): (r: string)
    ensures ToLower(r) == CollapseWhitespace(ToLower(Trim(name)))
  {
    var c := CollapseWhitespace(ToLower(Trim(name)));
    CollapsedShape(name);
    SplitCapitalizeJoin(c, true);
    CapitalizeWordsLower(c);
    Join(CapitalizeAll(Split(c, ' ')), ' ')
  }

  // ------------------------------------------------ a per-character reading

  /** Upper-cases the characters that start a word (after a space, or first when `atStart`). */
  function CapitalizeWords(s: string, atStart: bool): (r: string)
    ensures |r| == |s|
  {
    if s == [] then []
    else if s[0] == ' ' then [' '] + CapitalizeWords(s[1..], true)
    else [if atStart then UpperChar(s[0]) else s[0]] + CapitalizeWords(s[1..], false)
  }

  predicate StartsWord(s: string, i: int, atStart: bool)
    requires 0 <= i < |s|
  {
    if i == 0 then atStart else s[i - 1] == ' '
  }

  lemma {:induction false} CapitalizeWordsAt(s: string, atStart: bool, i: nat)
    requires i < |s|
    ensures CapitalizeWords(s, atStart)[i] == if StartsWord(s, i, atStart) then UpperChar(s[i]) else s[i]
  {
    if i > 0 {
      CapitalizeWordsAt(s[1..], s[0] == ' ', i - 1);
    }
  }

  /** The capitalised words, sparing the first one unless `atStart`. */
  function CapitalizeFrom(words: seq<string>, atStart: bool): seq<string>
    requires |words| >= 1
  {
    if atStart then CapitalizeAll(words) else [words[0]] + CapitalizeAll(words[1..])
  }

  lemma JoinConsChar(ch: char, w: string, rest: seq<string>, sep: char)
    ensures Join([[ch] + w] + rest, sep) == [ch] + Join([w] + rest, sep)
  {
    if |rest| > 0 {
      assert ([[ch] + w] + rest)[1..] == rest;
      assert ([w] + rest)[1..] == rest;
    }
  }

  lemma CapitalizeAllCons(w: string, rest: seq<string>)
    ensures CapitalizeAll([w] + rest) == [Capitalize(w)] + CapitalizeAll(rest)
  {
  }

  lemma SplitSpaceFirst(s: string)
    requires s != [] && s[0] == ' '
    ensures Split(s, ' ') == [""] + Split(s[1..], ' ')
  {
  }

  lemma SplitWordFirst(s: string)
    requires s != [] && s[0] != ' '
    ensures var rest := Split(s[1..], ' ');
      Split(s, ' ') == [[s[0]] + rest[0]] + rest[1..]
  {
  }

  /** Splitting on spaces, capitalising each word and joining again capitalises every word start in place. */
  lemma {:induction false} SplitCapitalizeJoin(s: string, atStart: bool)
    ensures Join(CapitalizeFrom(Split(s, ' '), atStart), ' ') == CapitalizeWords(s, atStart)
  {
    if s == [] {
      assert Split(s, ' ') == [""];
    } else if s[0] == ' ' {
      var rest := Split(s[1..], ' ');
      SplitSpaceFirst(s);
      SplitCapitalizeJoin(s[1..], true);
      var words := CapitalizeFrom(Split(s, ' '), atStart);
      assert words == [""] + CapitalizeAll(rest) by {
        CapitalizeAllCons("", rest);
        assert ([""] + rest)[1..] == rest;
      }
      assert words[1..] == CapitalizeAll(rest);
      assert Join(words, ' ') == [' '] + Join(CapitalizeAll(rest), ' ');
    } else {
      var rest := Split(s[1..], ' ');
      SplitWordFirst(s);
      SplitCapitalizeJoin(s[1..], false);
      var tail := CapitalizeAll(rest[1..]);
      var first := if atStart then UpperChar(s[0]) else s[0];
      assert CapitalizeFrom(Split(s, ' '), atStart) == [[first] + rest[0]] + tail by {
        var words := [[s[0]] + rest[0]] + rest[1..];
        CapitalizeAllCons([s[0]] + rest[0], rest[1..]);
        assert words[1..] == rest[1..];
      }
      assert CapitalizeFrom(rest, false) == [rest[0]] + tail;
      JoinConsChar(first, rest[0], tail, ' ');
    }
  }

  /** The normalised name, read character by character. */
  lemma NormalizeIsCapitalizeWords(name: string)
    ensures NormalizeCategory(name) == CapitalizeWords(CollapseWhitespace(ToLower(Trim(name))), true)
  {
    SplitCapitalizeJoin(CollapseWhitespace(ToLower(Trim(name))), true);
  }

  lemma LowerKeepsWhitespace(s: string)
    ensures forall i :: 0 <= i < |s| ==> (IsWhitespace(ToLower(s)[i]) <==> IsWhitespace(s[i]))
    ensures Lowered(ToLower(s))
  {
  }

  lemma SingleSpacedSuffix(s: string, k: nat)
    requires SingleSpaced(s) && k <= |s|
    ensures SingleSpaced(s[k..])
  {
    var t := s[k..];
    forall i | 0 <= i < |t| ensures t[i] == s[i + k] {}
  }

  lemma SingleLeadingSpace(t: string)
    requires |t| > 1 && t[0] == ' ' && !IsWhitespace(t[1])
    ensures IsWhitespace(t[0]) && TrimStart(t) == t[1..]
  {
    var u := t[1..];
    assert u[0] == t[1];
    assert TrimStart(u) == u;
  }

  lemma CollapseLeadingSpace(t: string)
    requires |t| > 1 && t[0] == ' ' && !IsWhitespace(t[1])
    requires CollapseWhitespace(t[1..]) == t[1..]
    ensures CollapseWhitespace(t) == t
  {
    var u := t[1..];
    SingleLeadingSpace(t);
    assert CollapseWhitespace(t) == [' '] + CollapseWhitespace(u);
    assert t == [' '] + u;
  }

  lemma {:induction false} CollapseSingleSpaced(s: string)
    requires SingleSpaced(s) && NoEdgeWhitespace(s)
    ensures CollapseWhitespace(s) == s
    decreases |s|
  {
    if s != [] {
      if IsWhitespace(s[0]) {
        assert false;
      }
      var t := s[1..];
      assert CollapseWhitespace(s) == [s[0]] + CollapseWhitespace(t);
      SingleSpacedSuffix(s, 1);
      if t != [] && IsWhitespace(t[0]) {
        assert s[1] == ' ' && |s| > 2;
        assert s[2] != ' ';
        assert !IsWhitespace(s[2]);
        SingleSpacedSuffix(s, 2);
        assert t[1..] == s[2..];
        assert NoEdgeWhitespace(s[2..]);
        CollapseSingleSpaced(t[1..]);
        CollapseLeadingSpace(t);
      } else {
        assert NoEdgeWhitespace(t);
        CollapseSingleSpaced(t);
      }
    }
  }

  /** Each word starts with an upper-case character and continues in lower case. */
  predicate WordCased(r: string) {
    forall i :: 0 <= i < |r| ==> r[i] == if i == 0 || r[i - 1] == ' ' then UpperChar(r[i]) else LowerChar(r[i])
  }

  lemma UpperCharFacts(x: char)
    ensures UpperChar(UpperChar(x)) == UpperChar(x)
    ensures UpperChar(x) == ' ' <==> x == ' '
  {
  }

  /** In a lower-case text, capitalising word starts leaves each word upper-case first, lower-case after. */
  lemma CapitalizeWordsCase(c: string)
    requires Lowered(c)
    ensures WordCased(CapitalizeWords(c, true))
  {
    var r := CapitalizeWords(c, true);
    forall i | 0 <= i < |r|
      ensures r[i] == if i == 0 || r[i - 1] == ' ' then UpperChar(r[i]) else LowerChar(r[i])
    {
      CapitalizeWordsAt(c, true, i);
      UpperCharFacts(c[i]);
      assert LowerChar(c[i]) == c[i];
      if i > 0 {
        CapitalizeWordsAt(c, true, i - 1);
        UpperCharFacts(c[i - 1]);
        assert r[i - 1] == ' ' <==> c[i - 1] == ' ';
      }
    }
    assert WordCased(r);
  }

  /** In a lower-case text, capitalising word starts changes nothing but the case. */
  lemma CapitalizeWordsLower(c: string)
    requires Lowered(c)
    ensures ToLower(CapitalizeWords(c, true)) == c
  {
    var r := CapitalizeWords(c, true);
    forall i | 0 <= i < |c| ensures LowerChar(r[i]) == c[i] {
      CapitalizeWordsAt(c, true, i);
    }
  }

  /** Capitalising word starts keeps the spaces where they are and only changes letters' case. */
  lemma CapitalizeWordsShape(c: string)
    requires SingleSpaced(c) && NoEdgeWhitespace(c) && Lowered(c)
    ensures var r := CapitalizeWords(c, true);
      && SingleSpaced(r) && NoEdgeWhitespace(r)
      && ToLower(r) == c
  {
    var r := CapitalizeWords(c, true);
    forall i | 0 <= i < |c|
      ensures r[i] == ' ' <==> c[i] == ' '
      ensures IsWhitespace(r[i]) <==> IsWhitespace(c[i])
      ensures LowerChar(r[i]) == c[i]
    {
      CapitalizeWordsAt(c, true, i);
    }
  }

  /** What the trim, lower-case and collapse steps leave for the capitalisation to work on. */
  lemma CollapsedShape(name: string)
    ensures var c := CollapseWhitespace(ToLower(Trim(name)));
      && SingleSpaced(c) && NoEdgeWhitespace(c) && Lowered(c)
      && (c == [] <==> IsBlank(name))
  {
    var t := Trim(name);
    LowerKeepsWhitespace(t);
  }

  /**
   * A normalised name has no leading or trailing whitespace, its only whitespace is
   * single spaces between words, and it is empty exactly when the input was blank.
   */
  lemma {:induction false} NormalizeShape(name: string)
    ensures var r := NormalizeCategory(name);
      && NoEdgeWhitespace(r) && SingleSpaced(r)
      && (r == [] <==> IsBlank(name))
  {
    CollapsedShape(name);
    NormalizeIsCapitalizeWords(name);
    CapitalizeWordsShape(CollapseWhitespace(ToLower(Trim(name))));
  }

  /**
   * Every word of a normalised name is its first character upper-cased followed by
   * the rest lower-cased.
   */
  lemma {:induction false} NormalizeWordCase(name: string)
    ensures WordCased(NormalizeCategory(name))
  {
    CollapsedShape(name);
    NormalizeIsCapitalizeWords(name);
    CapitalizeWordsCase(CollapseWhitespace(ToLower(Trim(name))));
  }

  lemma {:induction false} NonWhitespaceBlankTail(r: string, w: string)
    requires IsBlank(w)
    ensures NonWhitespace(r + w) == NonWhitespace(r)
  {
    if r == [] {
      assert r + w == w;
      NonWhitespaceSkip(w, |w|);
    } else {
      assert (r + w)[1..] == r[1..] + w;
      NonWhitespaceBlankTail(r[1..], w);
    }
  }

  /** Whitespace around an infix adds no characters to it. */
  lemma NonWhitespaceAround(s: string, r: string, a: int)
    requires WhitespaceAround(s, r, a)
    ensures NonWhitespace(r) == NonWhitespace(s)
  {
    NonWhitespaceSkip(s, a);
    assert s[a..] == r + s[a + |r|..];
    NonWhitespaceBlankTail(r, s[a + |r|..]);
  }

  /**
   * Normalising keeps every non-whitespace character of the name, in order, up to
   * letter case.
   */
  lemma NormalizeKeepsCharacters(name: string)
    ensures NonWhitespace(ToLower(NormalizeCategory(name))) == NonWhitespace(ToLower(name))
  {
    var t := Trim(name);
    var a :| WhitespaceAround(name, t, a);
    LowerAround(name, t, a);
    NonWhitespaceAround(ToLower(name), ToLower(t), a);
  }

  lemma LowerAround(s: string, r: string, a: int)
    requires WhitespaceAround(s, r, a)
    ensures WhitespaceAround(ToLower(s), ToLower(r), a)
  {
    var low := ToLower(s);
    forall i | 0 <= i < |s| ensures IsWhitespace(low[i]) <==> IsWhitespace(s[i]) {
      LowerCharWhitespace(s[i]);
    }
    assert ToLower(r) == low[a..a + |r|];
  }

  lemma LowerCharWhitespace(c: char)
    ensures IsWhitespace(LowerChar(c)) <==> IsWhitespace(c)
  {
  }

  lemma {:induction false} TrimStartLower(s: string)
    ensures ToLower(TrimStart(s)) == TrimStart(ToLower(s))
  {
    if s != [] {
      LowerCharWhitespace(s[0]);
      if IsWhitespace(s[0]) {
        assert ToLower(s)[1..] == ToLower(s[1..]);
        TrimStartLower(s[1..]);
      }
    }
  }

  lemma {:induction false} TrimEndLower(s: string)
    ensures ToLower(TrimEnd(s)) == TrimEnd(ToLower(s))
  {
    if s != [] && IsWhitespace(s[|s| - 1]) {
      assert ToLower(s)[..|s| - 1] == ToLower(s[..|s| - 1]);
      TrimEndLower(s[..|s| - 1]);
    }
  }

  /** Names that differ only in letter case normalise to the same string. */
  lemma {:induction false} NormalizeIgnoresCase(a: string, b: string)
    requires ToLower(a) == ToLower(b)
    ensures NormalizeCategory(a) == NormalizeCategory(b)
  {
    TrimStartLower(a);
    TrimEndLower(TrimStart(a));
    TrimStartLower(b);
    TrimEndLower(TrimStart(b));
  }

  /** Normalising a normalised name changes nothing. */
  lemma {:induction false} NormalizeIdempotent(name: string)
    ensures NormalizeCategory(NormalizeCategory(name)) == NormalizeCategory(name)
  {
    var c := CollapseWhitespace(ToLower(Trim(name)));
    CollapsedShape(name);
    NormalizeIsCapitalizeWords(name);
    CapitalizeWordsShape(c);
    var r := NormalizeCategory(name);
    TrimTrimmed(r);
    CollapseSingleSpaced(c);
    NormalizeIsCapitalizeWords(r);
  }

  // ------------------------------------------------ creating a category

  /** `categories.some((cat) => cat.name.toLowerCase() === name.toLowerCase())` */
  function AnySameName(categories: seq<Category>, name: string): (r: bool)
    ensures r <==> exists k :: 0 <= k < |categories| && ToLower(categories[k].name) == ToLower(name)
  {
    if categories == [] then false
    else ToLower(categories[0].name) == ToLower(name) || AnySameName(categories[1..], name)
  }

  /** How a create attempt ends before any server reply: blank input, a duplicate, or a POST of this name. */
  datatype Attempt = BlankName | Duplicate | Post(name: string)

  /**
   * The guards of `handleCreateCategory` and the mutation: blank input (after
   * trimming) is refused first; otherwise the name is normalised and refused when
   * an existing category has the same name ignoring case; otherwise the
   * normalised name, never the raw input, is what gets POSTed.
   */
  function DecideCreate(categories: seq<Category>, input: string): (r: Attempt)
    ensures r.BlankName? <==> IsBlank(input)
    ensures r.Duplicate? <==>
      !IsBlank(input)
      && exists k :: 0 <= k < |categories| && ToLower(categories[k].name) == ToLower(NormalizeCategory(input))
    ensures r.Post? ==>
      && r.name == NormalizeCategory(input) && r.name != []
      && forall k :: 0 <= k < |categories| ==> ToLower(categories[k].name) != ToLower(r.name)
  {
    if Trim(input) == [] then BlankName
    else
      var normalized := NormalizeCategory(input);
      NormalizeShape(input);
      if AnySameName(categories, normalized) then Duplicate else Post(normalized)
  }

  /** The server's answer to the POST: the created category, or an error with its message. */
  datatype Reply = Created(category: Category) | Failed(message: string)

  /** The picker's own state: the text typed into the dialog and whether the dialog is open. */
  class CategoryPicker {
    var newCategory: string
    var isOpen: bool

    constructor ()
      ensures newCategory == "" && !isOpen
    {
      newCategory := "";
      isOpen := false;
    }

    /** The input's `onChange`. */
    method SetNewCategory(text: string)
      modifies this
      ensures newCategory == text && isOpen == old(isOpen)
    {
      newCategory := text;
    }

    /** The dialog's `onOpenChange`. */
    method SetOpen(open: bool)
      modifies this
      ensures isOpen == open && newCategory == old(newCategory)
    {
      isOpen := open;
    }

    /**
     * `handleCreateCategory` followed by the mutation's `onSuccess` or `onError`.
     * Blank input and duplicates show an error and send nothing; a sent request
     * that succeeds clears the input, closes the dialog and selects the created
     * category's name when it has one; a failed request only shows its message.
     */
    method HandleCreateCategory(categories: seq<Category>, reply: Reply)
      returns (request: Option<string>, toast: Toast, chosen: Option<string>)
      modifies this
      ensures var attempt := DecideCreate(categories, old(newCategory));
        && request == (if attempt.Post? then Some(attempt.name) else None)
        && (attempt.BlankName? ==>
              toast == Toast("Error", "El nombre de la categoría no puede estar vacío", true))
        && (attempt.Duplicate? ==>
              toast == Toast("Error al crear la categoría", "Esta categoría ya existe", true))
      ensures request.Some? && reply.Created? ==>
        && newCategory == "" && !isOpen
        && toast == Toast("Categoría creada", "La categoría ha sido creada exitosamente.", false)
        && chosen == (if reply.category.name != "" then Some(reply.category.name) else None)
      ensures request.Some? && reply.Failed? ==>
        toast == Toast("Error al crear la categoría", reply.message, true)
      ensures !(request.Some? && reply.Created?) ==>
        newCategory == old(newCategory) && isOpen == old(isOpen) && chosen == None
    {
      chosen := None;
      request := None;
      if Trim(newCategory) == [] {
        toast := Toast("Error", "El nombre de la categoría no puede estar vacío", true);
        return;
      }
      var normalized := NormalizeCategory(newCategory);
      if AnySameName(categories, normalized) {
        toast := Toast("Error al crear la categoría", "Esta categoría ya existe", true);
        return;
      }
      request := Some(normalized);
      match reply {
        case Created(category) =>
          newCategory := "";
          isOpen := false;
          toast := Toast("Categoría creada", "La categoría ha sido creada exitosamente.", false);
          if category.name != "" {
            chosen := Some(category.name);
          }
        case Failed(message) =>
          toast := Toast("Error al crear la categoría", message, true);
      }
    }
  }

  // ------------------------------------------------ the displayed order

  /** `localeCompare(a, b) <= 0`, left abstract: any total preorder on names. */
  ghost predicate TotalPreorder(before: (string, string) -> bool) {
    && (forall a, b :: before(a, b) || before(b, a))
    && (forall a, b, c :: before(a, b) && before(b, c) ==> before(a, c))
  }

  ghost predicate SortedByName(cats: seq<Category>, before: (string, string) -> bool) {
    forall i, j :: 0 <= i < j < |cats| ==> before(cats[i].name, cats[j].name)
  }

  function InsertByName(c: Category, sorted: seq<Category>, before: (string, string) -> bool): (r: seq<Category>)
    ensures multiset(r) == multiset(sorted) + multiset{c}
  {
    if sorted == [] then [c]
    else if before(c.name, sorted[0].name) then [c] + sorted
    else
      assert sorted == [sorted[0]] + sorted[1..];
      [sorted[0]] + InsertByName(c, sorted[1..], before)
  }

  /** `[...categories].sort((a, b) => a.name.localeCompare(b.name))`: a sorted copy. */
  function SortByName(cats: seq<Category>, before: (string, string) -> bool): (r: seq<Category>)
    ensures multiset(r) == multiset(cats)
  {
    if cats == [] then []
    else
      assert cats == [cats[0]] + cats[1..];
      InsertByName(cats[0], SortByName(cats[1..], before), before)
  }

  lemma SortedCons(x: Category, sorted: seq<Category>, before: (string, string) -> bool)
    requires SortedByName(sorted, before)
    requires forall j :: 0 <= j < |sorted| ==> before(x.name, sorted[j].name)
    ensures SortedByName([x] + sorted, before)
  {
    var r := [x] + sorted;
    forall i, j | 0 <= i < j < |r| ensures before(r[i].name, r[j].name) {
      if i > 0 {
        assert r[i] == sorted[i - 1] && r[j] == sorted[j - 1];
      } else {
        assert r[j] == sorted[j - 1];
      }
    }
  }

  lemma {:induction false} InsertByNameSorted(c: Category, sorted: seq<Category>, before: (string, string) -> bool)
    requires TotalPreorder(before) && SortedByName(sorted, before)
    ensures SortedByName(InsertByName(c, sorted, before), before)
  {
    if sorted == [] {
    } else if before(c.name, sorted[0].name) {
      forall j | 0 <= j < |sorted| ensures before(c.name, sorted[j].name) {
        if j > 0 {
          assert before(sorted[0].name, sorted[j].name);
        }
      }
      SortedCons(c, sorted, before);
    } else {
      var tail := sorted[1..];
      InsertByNameSorted(c, tail, before);
      var rest := InsertByName(c, tail, before);
      assert before(sorted[0].name, c.name);
      forall j | 0 <= j < |rest| ensures before(sorted[0].name, rest[j].name) {
        assert rest[j] in multiset(rest);
        if rest[j] != c {
          assert rest[j] in multiset(tail);
          var k :| 0 <= k < |tail| && tail[k] == rest[j];
          assert sorted[k + 1] == rest[j];
        }
      }
      SortedCons(sorted[0], rest, before);
    }
  }

  /** The displayed list holds exactly the fetched categories, ordered by name. */
  lemma {:induction false} SortByNameSpec(cats: seq<Category>, before: (string, string) -> bool)
    requires TotalPreorder(before)
    ensures multiset(SortByName(cats, before)) == multiset(cats)
    ensures SortedByName(SortByName(cats, before), before)
  {
    if cats != [] {
      SortByNameSpec(cats[1..], before);
      InsertByNameSorted(cats[0], SortByName(cats[1..], before), before);
    }
  }
}
