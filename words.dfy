/**
 * The word-level string rewrites the pages use to turn path segments into
 * titles: collapsing runs of characters (`replace(/[...]+/g, " ")`) and
 * capitalising the words of `split(sep).map(...).join(sep)`.
 */
module Words {
  import opened Text
  import Lists

  predicate IsDashOrUnderscore(c: char)
  {
    c == '-' || c == '_'
  }

  /** `s` without its leading run of characters in the class. */
  function DropRun(s: string, inRun: char -> bool): (r: string)
    ensures |r| <= |s| && r == s[|s| - |r|..]
    ensures r == [] || !inRun(r[0])
  {
    if s != [] && inRun(s[0]) then DropRun(s[1..], inRun) else s
  }

  /** No two neighbouring characters both in the class. */
  predicate NoDoubles(s: string, inRun: char -> bool)
  {
    forall i :: 0 <= i < |s| - 1 ==> !(inRun(s[i]) && inRun(s[i + 1]))
  }

  /** `s.replace(/[class]+/g, " ")`: every maximal run of characters in the class becomes one space. */
  function ReplaceRuns(s: string, inRun: char -> bool): (r: string)
    ensures |r| <= |s| && (s == [] <==> r == [])
    ensures forall c :: c in r ==> c == ' ' || (!inRun(c) && c in s)
    ensures s != [] && !inRun(s[0]) ==> r[0] == s[0]
    decreases |s|
  {
    if s == [] then []
    else if inRun(s[0]) then
      var rest := DropRun(s[1..], inRun);
      var tail := ReplaceRuns(rest, inRun);
      assert forall c :: c in rest ==> c in s;
      [' '] + tail
    else
      var tail := ReplaceRuns(s[1..], inRun);
      assert forall c :: c in s[1..] ==> c in s;
      [s[0]] + tail
  }

  /**
   * No two neighbouring characters of the result are in the class: a run
   * became a single space, and the character after it is outside the class.
   */
  lemma {:induction false} ReplaceRunsNoDoubles(s: string, inRun: char -> bool)
    ensures NoDoubles(ReplaceRuns(s, inRun), inRun)
    decreases |s|
  {
    if s == [] {
    } else if inRun(s[0]) {
      var rest := DropRun(s[1..], inRun);
      ReplaceRunsNoDoubles(rest, inRun);
    } else {
      ReplaceRunsNoDoubles(s[1..], inRun);
    }
  }

  /**
   * The reference definition of run collapsing, one character at a time:
   * a character in the class becomes a space unless the one before it was
   * in the class too (`afterRun` tells whether the text before `s` ended
   * inside a run); every other character is kept.
   */
  function CollapseFrom(s: string, inRun: char -> bool, afterRun: bool): string
  {
    if s == [] then []
    else if inRun(s[0]) then (if afterRun then [] else [' ']) + CollapseFrom(s[1..], inRun, true)
    else [s[0]] + CollapseFrom(s[1..], inRun, false)
  }

  /** Inside a run, the rest of the run adds nothing. */
  lemma {:induction false} CollapseAfterRun(t: string, inRun: char -> bool)
    ensures CollapseFrom(t, inRun, true) == CollapseFrom(DropRun(t, inRun), inRun, false)
  {
    if t != [] && inRun(t[0]) {
      CollapseAfterRun(t[1..], inRun);
    }
  }

  /** `ReplaceRuns` agrees with the character-at-a-time reference. */
  lemma {:induction false} ReplaceRunsIsCollapse(s: string, inRun: char -> bool)
    ensures ReplaceRuns(s, inRun) == CollapseFrom(s, inRun, false)
    decreases |s|
  {
    if s != [] {
      if inRun(s[0]) {
        CollapseAfterRun(s[1..], inRun);
        ReplaceRunsIsCollapse(DropRun(s[1..], inRun), inRun);
      } else {
        ReplaceRunsIsCollapse(s[1..], inRun);
      }
    }
  }

  /** A character outside the class splits the collapse in two. */
  lemma {:induction false} CollapseAtKept(a: string, c: char, b: string, inRun: char -> bool, afterRun: bool)
    requires !inRun(c)
    ensures CollapseFrom(a + [c] + b, inRun, afterRun) == CollapseFrom(a, inRun, afterRun) + [c] + CollapseFrom(b, inRun, false)
  {
    if a == [] {
      assert (a + [c] + b)[1..] == b;
    } else {
      assert (a + [c] + b)[1..] == a[1..] + [c] + b;
      CollapseAtKept(a[1..], c, b, inRun, inRun(a[0]));
    }
  }

  /** A character outside the class is kept, and the text on either side collapses on its own. */
  lemma ReplaceRunsAtKept(a: string, c: char, b: string, inRun: char -> bool)
    requires !inRun(c)
    ensures ReplaceRuns(a + [c] + b, inRun) == ReplaceRuns(a, inRun) + [c] + ReplaceRuns(b, inRun)
  {
    ReplaceRunsIsCollapse(a + [c] + b, inRun);
    ReplaceRunsIsCollapse(a, inRun);
    ReplaceRunsIsCollapse(b, inRun);
    CollapseAtKept(a, c, b, inRun, false);
  }

  /** A whole run, however long, becomes exactly one space. */
  lemma ReplaceRunsOfRun(t: string, inRun: char -> bool)
    requires t != [] && forall i :: 0 <= i < |t| ==> inRun(t[i])
    ensures ReplaceRuns(t, inRun) == " "
  {
    DropWholeRun(t[1..], inRun);
  }

  lemma {:induction false} DropWholeRun(t: string, inRun: char -> bool)
    requires forall i :: 0 <= i < |t| ==> inRun(t[i])
    ensures DropRun(t, inRun) == []
  {
    if t != [] {
      DropWholeRun(t[1..], inRun);
    }
  }

  /** The characters outside the class and other than a space come out in the order they went in. */
  lemma {:induction false} ReplaceRunsKeeps(s: string, inRun: char -> bool, keep: char -> bool)
    requires forall c :: keep(c) ==> !inRun(c) && c != ' '
    ensures Lists.Filter(keep, ReplaceRuns(s, inRun)) == Lists.Filter(keep, s)
  {
    ReplaceRunsIsCollapse(s, inRun);
    CollapseKeeps(s, inRun, keep, false);
  }

  lemma {:induction false} CollapseKeeps(s: string, inRun: char -> bool, keep: char -> bool, afterRun: bool)
    requires forall c :: keep(c) ==> !inRun(c) && c != ' '
    ensures Lists.Filter(keep, CollapseFrom(s, inRun, afterRun)) == Lists.Filter(keep, s)
  {
    if s != [] {
      var head := if inRun(s[0]) then (if afterRun then [] else [' ']) else [s[0]];
      var rest := CollapseFrom(s[1..], inRun, inRun(s[0]));
      assert CollapseFrom(s, inRun, afterRun) == head + rest;
      Lists.FilterAppend(keep, head, rest);
      CollapseKeeps(s[1..], inRun, keep, inRun(s[0]));
      assert s == [s[0]] + s[1..];
      Lists.FilterAppend(keep, [s[0]], s[1..]);
      if inRun(s[0]) {
        assert Lists.Filter(keep, head) == [] == Lists.Filter(keep, [s[0]]);
      }
    }
  }

  /** Trimming removes only white space: every other character survives, in order. */
  lemma {:induction false} TrimKeeps(s: string, keep: char -> bool)
    requires forall c :: keep(c) ==> !IsSpace(c)
    ensures Lists.Filter(keep, Trim(s)) == Lists.Filter(keep, s)
    decreases |s|
  {
    if |s| > 0 && IsSpace(s[0]) {
      assert s == [s[0]] + s[1..];
      Lists.FilterAppend(keep, [s[0]], s[1..]);
      TrimKeeps(s[1..], keep);
    } else if |s| > 0 && IsSpace(s[|s| - 1]) {
      assert s == s[..|s| - 1] + [s[|s| - 1]];
      Lists.FilterAppend(keep, s[..|s| - 1], [s[|s| - 1]]);
      TrimKeeps(s[..|s| - 1], keep);
    }
  }

  /** A worked case: the dash of "log-in" becomes a space. */
  lemma ReplaceRunsExample()
    ensures ReplaceRuns("log-in", IsDashOrUnderscore) == "log in"
  {
    var f := IsDashOrUnderscore;
    assert "n"[0] == 'n' && "n"[1..] == [];
    assert CollapseFrom("n", f, false) == "n";
    assert "in"[0] == 'i' && "in"[1..] == "n";
    assert CollapseFrom("in", f, true) == "in";
    assert "-in"[0] == '-' && "-in"[1..] == "in";
    assert CollapseFrom("-in", f, false) == " in";
    assert "g-in"[0] == 'g' && "g-in"[1..] == "-in";
    assert CollapseFrom("g-in", f, false) == "g in";
    assert "og-in"[0] == 'o' && "og-in"[1..] == "g-in";
    assert CollapseFrom("og-in", f, false) == "og in";
    assert "log-in"[0] == 'l' && "log-in"[1..] == "og-in";
    assert CollapseFrom("log-in", f, false) == "log in";
    ReplaceRunsIsCollapse("log-in", f);
  }

  /** A character that is not an ASCII letter, so case mapping leaves it and never produces it. */
  predicate Caseless(c: char)
  {
    !('a' <= c <= 'z') && !('A' <= c <= 'Z')
  }

  /** `w.charAt(0).toUpperCase() + w.slice(1)`, "" for an empty word. */
  function Capitalize(w: string): string
  {
    if w == [] then [] else [UpperChar(w[0])] + w[1..]
  }

  /** Position `i` starts a part: it is the first character (when `atStart`) or follows a separator. */
  predicate StartsPart(x: string, i: int, atStart: bool, sep: char)
    requires 0 <= i < |x|
  {
    (i == 0 && atStart) || (i > 0 && x[i - 1] == sep)
  }

  /** The reference definition of capitalising the parts between separators, character by character. */
  function CapitalizeWords(x: string, atStart: bool, sep: char): (r: string)
    ensures |r| == |x|
    ensures forall i :: 0 <= i < |x| ==> r[i] == (if StartsPart(x, i, atStart, sep) then UpperChar(x[i]) else x[i])
  {
    if x == [] then []
    else
      var rest := CapitalizeWords(x[1..], x[0] == sep, sep);
      var r := [if atStart then UpperChar(x[0]) else x[0]] + rest;
      assert forall i :: 0 < i < |x| ==>
        r[i] == rest[i - 1] && x[1..][i - 1] == x[i] && (StartsPart(x, i, atStart, sep) <==> StartsPart(x[1..], i - 1, x[0] == sep, sep));
      r
  }

  lemma JoinCons(a: string, parts: seq<string>, sep: string)
    requires parts != []
    ensures Join([a] + parts, sep) == a + sep + Join(parts, sep)
  {
    assert ([a] + parts)[1..] == parts;
  }

  lemma JoinFirstChar(c: char, a: string, parts: seq<string>, sep: string)
    ensures Join([[c] + a] + parts, sep) == [c] + Join([a] + parts, sep)
  {
    assert ([[c] + a] + parts)[1..] == parts;
    assert ([a] + parts)[1..] == parts;
  }

  /** Splitting, capitalising every part but the first and joining again is `CapitalizeWords(x, false, sep)`. */
  lemma {:induction false} SplitJoinPlain(x: string, sep: char)
    requires Caseless(sep)
    ensures var parts := Split(x, sep);
      Join([parts[0]] + Lists.Map(Capitalize, parts[1..]), [sep]) == CapitalizeWords(x, false, sep)
  {
    var parts := Split(x, sep);
    if x == [] {
      assert parts == [""];
    } else if x[0] == sep {
      var rest := Split(x[1..], sep);
      assert parts == [""] + rest;
      assert parts[1..] == rest;
      SplitJoinCapitalized(x[1..], sep);
      JoinCons("", Lists.Map(Capitalize, rest), [sep]);
    } else {
      var rest := Split(x[1..], sep);
      assert parts == [[x[0]] + rest[0]] + rest[1..];
      assert parts[1..] == rest[1..];
      SplitJoinPlain(x[1..], sep);
      JoinFirstChar(x[0], rest[0], Lists.Map(Capitalize, rest[1..]), [sep]);
    }
  }

  /** Splitting, capitalising every part and joining again is `CapitalizeWords(x, true, sep)`. */
  lemma {:induction false} SplitJoinCapitalized(x: string, sep: char)
    requires Caseless(sep)
    ensures Join(Lists.Map(Capitalize, Split(x, sep)), [sep]) == CapitalizeWords(x, true, sep)
  {
    var parts := Split(x, sep);
    if x == [] {
      assert parts == [""];
      assert Lists.Map(Capitalize, parts) == [""];
    } else if x[0] == sep {
      var rest := Split(x[1..], sep);
      assert parts == [""] + rest;
      var mapped := Lists.Map(Capitalize, parts);
      assert mapped == [""] + Lists.Map(Capitalize, rest);
      SplitJoinCapitalized(x[1..], sep);
      JoinCons("", Lists.Map(Capitalize, rest), [sep]);
    } else {
      var rest := Split(x[1..], sep);
      assert parts == [[x[0]] + rest[0]] + rest[1..];
      var mapped := Lists.Map(Capitalize, parts);
      assert mapped == [[UpperChar(x[0])] + rest[0]] + Lists.Map(Capitalize, rest[1..]);
      SplitJoinPlain(x[1..], sep);
      JoinFirstChar(UpperChar(x[0]), rest[0], Lists.Map(Capitalize, rest[1..]), [sep]);
    }
  }

  /** Upper-casing changes only lower-case ASCII letters, into upper-case ones, and upper-cases at most once. */
  lemma UpperCharOnlyLetters(c: char)
    ensures UpperChar(c) == c || ('a' <= c <= 'z' && 'A' <= UpperChar(c) <= 'Z')
    ensures UpperChar(UpperChar(c)) == UpperChar(c)
  {
  }

  /** Upper-casing never turns a character into a caseless one it was not. */
  lemma CaselessUpper(c: char, sep: char)
    requires Caseless(sep)
    ensures UpperChar(c) == sep <==> c == sep
  {
  }

  /** Capitalising twice is capitalising once, for a separator that is not a letter. */
  lemma CapitalizeWordsIdempotent(x: string, sep: char)
    requires Caseless(sep)
    ensures CapitalizeWords(CapitalizeWords(x, true, sep), true, sep) == CapitalizeWords(x, true, sep)
  {
    var once := CapitalizeWords(x, true, sep);
    var twice := CapitalizeWords(once, true, sep);
    forall i | 0 <= i < |x|
      ensures twice[i] == once[i]
    {
      UpperCharOnlyLetters(x[i]);
      if i > 0 {
        CaselessUpper(x[i - 1], sep);
        assert StartsPart(once, i, true, sep) <==> StartsPart(x, i, true, sep);
      }
    }
  }

  /** The characters `\w` matches: ASCII letters, digits and `_`. */
  predicate IsWordChar(c: char)
  {
    ('a' <= c <= 'z') || ('A' <= c <= 'Z') || IsDigit(c) || c == '_'
  }

  /** `\b\w` matches at `i`: a word character with no word character before it (`afterWord` tells what precedes `s`). */
  predicate StartsWord(s: string, i: int, afterWord: bool)
    requires 0 <= i < |s|
  {
    IsWordChar(s[i]) && (if i == 0 then !afterWord else !IsWordChar(s[i - 1]))
  }

  /** `s.replace(/\b\w/g, c => c.toUpperCase())`, scanning left to right. */
  function UpperWordStarts(s: string, afterWord: bool): (r: string)
    ensures |r| == |s|
    ensures forall i :: 0 <= i < |s| ==> r[i] == (if StartsWord(s, i, afterWord) then UpperChar(s[i]) else s[i])
  {
    if s == [] then []
    else
      var rest := UpperWordStarts(s[1..], IsWordChar(s[0]));
      var r := [if IsWordChar(s[0]) && !afterWord then UpperChar(s[0]) else s[0]] + rest;
      assert forall i :: 0 < i < |s| ==>
        r[i] == rest[i - 1] && (StartsWord(s, i, afterWord) <==> StartsWord(s[1..], i - 1, IsWordChar(s[0])));
      r
  }

  /** Upper-casing word starts changes only letters: white space, dashes and underscores stay where they were. */
  lemma UpperWordStartsKeepsMarks(s: string, afterWord: bool)
    ensures var r := UpperWordStarts(s, afterWord);
      forall i :: 0 <= i < |s| ==>
        (IsSpace(r[i]) <==> IsSpace(s[i])) && (IsDashOrUnderscore(r[i]) <==> IsDashOrUnderscore(s[i]))
  {
    var r := UpperWordStarts(s, afterWord);
    forall i | 0 <= i < |s|
      ensures (IsSpace(r[i]) <==> IsSpace(s[i])) && (IsDashOrUnderscore(r[i]) <==> IsDashOrUnderscore(s[i]))
    {
      UpperCharOnlyLetters(s[i]);
    }
  }

  /** A worked case: both words of "log in" start upper-case. */
  lemma UpperWordStartsExample()
    ensures UpperWordStarts("log in", false) == "Log In"
  {
    var s := "log in";
    assert StartsWord(s, 0, false) && !StartsWord(s, 1, false) && !StartsWord(s, 2, false);
    assert !StartsWord(s, 3, false) && StartsWord(s, 4, false) && !StartsWord(s, 5, false);
  }
}
