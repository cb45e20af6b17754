/**
 * The few operations of Python's `str` type that the scripts rely on, over
 * `string` (a sequence of Unicode scalar values): substring search, `replace`
 * (all occurrences, or only the first), `split(sep)`, `sep.join(...)`,
 * whitespace splitting and stripping, and code-point ordering.
 */
module Strings {

  /** `p` is a prefix of `s` (Python `s.startswith(p)`). */
  predicate IsPrefix(p: string, s: string) {
    |p| <= |s| && s[..|p|] == p
  }

  /** `p` is a suffix of `s` (Python `s.endswith(p)`). */
  predicate IsSuffix(p: string, s: string) {
    |p| <= |s| && s[|s| - |p|..] == p
  }

  /** Python `pat in s`. */
  predicate Contains(s: string, pat: string)
    decreases |s|
  {
    IsPrefix(pat, s) || (|s| > 0 && Contains(s[1..], pat))
  }

  /** `pat` occurs in `s` at index `i`. */
  ghost predicate OccursAt(s: string, pat: string, i: int) {
    0 <= i && i + |pat| <= |s| && s[i..i + |pat|] == pat
  }

  /**
   * Python `s.find(pat)`: the least index at which `pat` occurs, or -1 when
   * it occurs nowhere.
   */
  function Find(s: string, pat: string): (r: int)
    ensures -1 <= r <= |s|
    ensures r == -1 <==> !Contains(s, pat)
    ensures r >= 0 ==> OccursAt(s, pat, r)
    ensures r >= 0 ==> forall j :: 0 <= j < r ==> !OccursAt(s, pat, j)
    decreases |s|
  {
    if IsPrefix(pat, s) then 0
    else if s == [] then -1
    else
      var k := Find(s[1..], pat);
      if k == -1 then -1
      else
        assert forall j :: 1 <= j <= k ==> (OccursAt(s, pat, j) <==> OccursAt(s[1..], pat, j - 1));
        k + 1
  }

  /** `Contains` is the existence of an occurrence. */
  lemma {:induction false} ContainsOccurs(s: string, pat: string)
    ensures Contains(s, pat) <==> exists i :: OccursAt(s, pat, i)
  {
    var r := Find(s, pat);
    if r == -1 {
      forall i | OccursAt(s, pat, i) ensures false {
        NotContainsNoOccurrence(s, pat, i);
      }
    }
  }

  lemma {:induction false} NotContainsNoOccurrence(s: string, pat: string, i: int)
    requires !Contains(s, pat)
    ensures !OccursAt(s, pat, i)
    decreases |s|
  {
    if i > 0 && |s| > 0 {
      NotContainsNoOccurrence(s[1..], pat, i - 1);
    }
  }

  /** A pattern holding a character that the text lacks does not occur in it. */
  lemma AbsentCharRulesOut(s: string, pat: string, j: nat)
    requires j < |pat| && pat[j] !in s
    ensures !Contains(s, pat)
  {
    forall i | 0 <= i ensures !OccursAt(s, pat, i) {
      if i + |pat| <= |s| {
        assert s[i..i + |pat|][j] == s[i + j];
        assert s[i + j] in s;
      }
    }
    ContainsOccurs(s, pat);
  }

  /**
   * Python `s.replace(pat, rep)`: every occurrence of `pat`, found left to
   * right without overlap, is replaced by `rep`.
   */
  function ReplaceAll(s: string, pat: string, rep: string): string
    requires pat != []
    decreases |s|
  {
    if IsPrefix(pat, s) then rep + ReplaceAll(s[|pat|..], pat, rep)
    else if s == [] then []
    else [s[0]] + ReplaceAll(s[1..], pat, rep)
  }

  /** Replacing one character by another rewrites it in place and touches nothing else. */
  lemma {:induction false} ReplaceOneChar(s: string, a: char, b: char)
    ensures |ReplaceAll(s, [a], [b])| == |s|
    ensures forall i :: 0 <= i < |s| ==> ReplaceAll(s, [a], [b])[i] == if s[i] == a then b else s[i]
    decreases |s|
  {
    if s != [] {
      ReplaceOneChar(s[1..], a, b);
      if IsPrefix([a], s) {
        assert s[0] == a;
      }
    }
  }

  /** Python `s.replace(pat, rep, 1)`: only the leftmost occurrence is replaced. */
  function ReplaceFirst(s: string, pat: string, rep: string): (r: string)
    requires pat != []
    ensures !Contains(s, pat) ==> r == s
    ensures Contains(s, pat) ==>
      var i := Find(s, pat); r == s[..i] + rep + s[i + |pat|..]
    decreases |s|
  {
    if IsPrefix(pat, s) then rep + s[|pat|..]
    else if s == [] then []
    else
      var t := ReplaceFirst(s[1..], pat, rep);
      ReplaceFirstAfterHead(s, pat, rep, t);
      [s[0]] + t
  }

  /** When the pattern does not start the text, replacing in the tail replaces in the whole. */
  lemma ReplaceFirstAfterHead(s: string, pat: string, rep: string, t: string)
    requires pat != [] && s != [] && !IsPrefix(pat, s)
    requires !Contains(s[1..], pat) ==> t == s[1..]
    requires Contains(s[1..], pat) ==>
      var i := Find(s[1..], pat); t == s[1..][..i] + rep + s[1..][i + |pat|..]
    ensures !Contains(s, pat) ==> [s[0]] + t == s
    ensures Contains(s, pat) ==>
      var i := Find(s, pat); [s[0]] + t == s[..i] + rep + s[i + |pat|..]
  {
    ContainsAfterHead(s, pat);
    if Contains(s[1..], pat) {
      FindAfterHead(s, pat);
      ShiftedReplacement(s, Find(s, pat), |pat|, rep, t);
    } else {
      assert s == [s[0]] + s[1..];
    }
  }

  /** Where the pattern does not start, it occurs exactly when it occurs in the rest. */
  lemma ContainsAfterHead(s: string, pat: string)
    requires s != [] && !IsPrefix(pat, s)
    ensures Contains(s, pat) <==> Contains(s[1..], pat)
  {
  }

  /** A replacement at `i` in a text is its head before the replacement at `i - 1` in its tail. */
  lemma ShiftedReplacement(s: string, i: nat, n: nat, rep: string, t: string)
    requires 1 <= i && i + n <= |s|
    requires t == s[1..][..i - 1] + rep + s[1..][i - 1 + n..]
    ensures [s[0]] + t == s[..i] + rep + s[i + n..]
  {
    assert s[..i] == [s[0]] + s[1..][..i - 1];
    assert s[i + n..] == s[1..][i - 1 + n..];
  }

  /** Python `sep.join(xs)`. */
  function Join(xs: seq<string>, sep: string): string {
    if |xs| == 0 then ""
    else if |xs| == 1 then xs[0]
    else xs[0] + sep + Join(xs[1..], sep)
  }

  /** Python `"".join(xs)`. */
  function Concat(xs: seq<string>): string {
    Join(xs, "")
  }

  /** Python `s.split(sep)` with an explicit, non-empty separator. */
  function Split(s: string, sep: string): (r: seq<string>)
    requires sep != []
    ensures |r| >= 1
    decreases |s|
  {
    if IsPrefix(sep, s) then [""] + Split(s[|sep|..], sep)
    else if s == [] then [""]
    else
      var rest := Split(s[1..], sep);
      [[s[0]] + rest[0]] + rest[1..]
  }

  /** Python's identity `s.replace(sep, rep) == rep.join(s.split(sep))`. */
  lemma {:induction false} JoinSplitIsReplace(s: string, sep: string, rep: string)
    requires sep != []
    ensures Join(Split(s, sep), rep) == ReplaceAll(s, sep, rep)
    decreases |s|
  {
    if IsPrefix(sep, s) {
      JoinSplitIsReplace(s[|sep|..], sep, rep);
      var rest := Split(s[|sep|..], sep);
      assert ([""] + rest)[1..] == rest;
    } else if s != [] {
      JoinSplitIsReplace(s[1..], sep, rep);
      JoinConsChar(s[0], Split(s[1..], sep), rep);
    }
  }

  /** Prepending a character to the first piece prepends it to the joined text. */
  lemma JoinConsChar(c: char, xs: seq<string>, sep: string)
    requires xs != []
    ensures Join([[c] + xs[0]] + xs[1..], sep) == [c] + Join(xs, sep)
  {
    var ys := [[c] + xs[0]] + xs[1..];
    if |xs| > 1 {
      assert ys[1..] == xs[1..];
    }
  }

  /** Replacing a pattern by itself changes nothing. */
  lemma {:induction false} ReplaceBySelf(s: string, pat: string)
    requires pat != []
    ensures ReplaceAll(s, pat, pat) == s
    decreases |s|
  {
    if IsPrefix(pat, s) {
      ReplaceBySelf(s[|pat|..], pat);
      assert s == pat + s[|pat|..];
    } else if s != [] {
      ReplaceBySelf(s[1..], pat);
      assert s == [s[0]] + s[1..];
    }
  }

  /** Joining the pieces of a split with the same separator restores the text. */
  lemma JoinSplit(s: string, sep: string)
    requires sep != []
    ensures Join(Split(s, sep), sep) == s
  {
    JoinSplitIsReplace(s, sep, sep);
    ReplaceBySelf(s, sep);
  }

  /** The first piece of a split is where the text starts. */
  lemma {:induction false} SplitHeadIsPrefix(s: string, sep: string)
    requires sep != []
    ensures IsPrefix(Split(s, sep)[0], s)
    decreases |s|
  {
    if !IsPrefix(sep, s) && s != [] {
      SplitHeadIsPrefix(s[1..], sep);
    }
  }

  /** No piece of a split holds the separator. */
  lemma {:induction false} SplitPiecesNoSep(s: string, sep: string)
    requires sep != []
    ensures forall k :: 0 <= k < |Split(s, sep)| ==> !Contains(Split(s, sep)[k], sep)
    decreases |s|
  {
    if IsPrefix(sep, s) {
      SplitPiecesNoSep(s[|sep|..], sep);
      assert !Contains("", sep);
    } else if s != [] {
      var rest := Split(s[1..], sep);
      SplitPiecesNoSep(s[1..], sep);
      SplitHeadIsPrefix(s[1..], sep);
      var head := [s[0]] + rest[0];
      assert head[1..] == rest[0];
      assert IsPrefix(head, s);
      assert !IsPrefix(sep, head);
    }
  }

  /**
   * `s.replace(sep, rep)` cuts the text at every occurrence of `sep` into
   * pieces that hold no `sep`, which rejoined with `sep` give the text back,
   * and joins them with `rep` instead.
   */
  lemma ReplaceBetweenPieces(s: string, sep: string, rep: string)
    requires sep != []
    ensures var pieces := Split(s, sep);
      (forall k :: 0 <= k < |pieces| ==> !Contains(pieces[k], sep))
      && Join(pieces, sep) == s && ReplaceAll(s, sep, rep) == Join(pieces, rep)
  {
    SplitPiecesNoSep(s, sep);
    JoinSplit(s, sep);
    JoinSplitIsReplace(s, sep, rep);
  }

  /** Replacement does not touch text in which the pattern does not occur. */
  lemma {:induction false} ReplaceAbsent(s: string, pat: string, rep: string)
    requires pat != [] && !Contains(s, pat)
    ensures ReplaceAll(s, pat, rep) == s
    decreases |s|
  {
    if s != [] {
      ReplaceAbsent(s[1..], pat, rep);
      assert s == [s[0]] + s[1..];
    }
  }

  /**
   * A replacement whose pattern and replacement hold the same number of
   * copies of `c` keeps the number of copies of `c`.
   */
  lemma {:induction false} ReplaceKeepsCount(s: string, pat: string, rep: string, c: char)
    requires pat != []
    requires multiset(pat)[c] == multiset(rep)[c]
    ensures multiset(ReplaceAll(s, pat, rep))[c] == multiset(s)[c]
    decreases |s|
  {
    if IsPrefix(pat, s) {
      ReplaceKeepsCount(s[|pat|..], pat, rep, c);
      assert s == pat + s[|pat|..];
    } else if s != [] {
      ReplaceKeepsCount(s[1..], pat, rep, c);
      assert s == [s[0]] + s[1..];
    }
  }

  /** The number of pieces of a split on one character is one more than its count. */
  lemma {:induction false} SplitCount(s: string, c: char)
    ensures |Split(s, [c])| == multiset(s)[c] + 1
    decreases |s|
  {
    if s != [] {
      SplitCount(s[1..], c);
      assert s == [s[0]] + s[1..];
    }
  }

  /** No piece of a split on `c` contains `c`. */
  lemma {:induction false} SplitPiecesFree(s: string, c: char)
    ensures forall k :: 0 <= k < |Split(s, [c])| ==> c !in Split(s, [c])[k]
    decreases |s|
  {
    if s != [] {
      SplitPiecesFree(s[1..], c);
    }
  }

  /** Splitting on a character absent from the text yields the text itself. */
  lemma {:induction false} SplitWithoutSeparator(s: string, c: char)
    requires c !in s
    ensures Split(s, [c]) == [s]
    decreases |s|
  {
    if s != [] {
      SplitWithoutSeparator(s[1..], c);
      assert [s[0]] + s[1..] == s;
    }
  }

  /** Splitting `x + [c] + t` on `c` first yields `x` when `x` is free of `c`. */
  lemma {:induction false} SplitAfterPiece(x: string, c: char, t: string)
    requires c !in x
    ensures Split(x + [c] + t, [c]) == [x] + Split(t, [c])
    decreases |x|
  {
    var s := x + [c] + t;
    if x == [] {
      assert s[1..] == t;
    } else {
      assert s[1..] == x[1..] + [c] + t;
      SplitAfterPiece(x[1..], c, t);
      assert [x[0]] + x[1..] == x;
    }
  }

  /**
   * Joining pieces free of a separator character and splitting on it again
   * gives the pieces back.
   */
  lemma {:induction false} SplitJoin(xs: seq<string>, c: char)
    requires |xs| >= 1
    requires forall i :: 0 <= i < |xs| ==> c !in xs[i]
    ensures Split(Join(xs, [c]), [c]) == xs
    decreases |xs|
  {
    if |xs| == 1 {
      SplitWithoutSeparator(xs[0], c);
    } else {
      SplitJoin(xs[1..], c);
      SplitAfterPiece(xs[0], c, Join(xs[1..], [c]));
      assert [xs[0]] + xs[1..] == xs;
    }
  }

  /** A join of pieces free of `c` with a one-character separator `c` holds `|xs| - 1` copies of `c`. */
  lemma {:induction false} JoinCount(xs: seq<string>, c: char)
    requires |xs| >= 1
    requires forall i :: 0 <= i < |xs| ==> c !in xs[i]
    ensures multiset(Join(xs, [c]))[c] == |xs| - 1
    decreases |xs|
  {
    if |xs| > 1 {
      JoinCount(xs[1..], c);
      assert multiset(xs[0])[c] == 0;
    } else {
      assert multiset(xs[0])[c] == 0;
    }
  }

  /** Python `s.find(c)` for one character: the first index holding `c`, or -1. */
  function FindChar(s: string, c: char): (r: int)
    ensures -1 <= r < |s|
    ensures r == -1 <==> c !in s
    ensures r >= 0 ==> s[r] == c && c !in s[..r]
    decreases |s|
  {
    if s == [] then -1
    else if s[0] == c then 0
    else
      var k := FindChar(s[1..], c);
      assert s == [s[0]] + s[1..];
      if k == -1 then -1
      else
        assert s[..k + 1] == [s[0]] + s[1..][..k];
        k + 1
  }

  /** A character's first position is where it occurs with no earlier occurrence. */
  lemma {:induction false} FindCharAt(s: string, c: char, k: nat)
    requires k < |s| && s[k] == c && c !in s[..k]
    ensures FindChar(s, c) == k
    decreases k
  {
    if k > 0 {
      assert s[..k][0] == s[0];
      assert s[1..][..k - 1] == s[1..k];
      assert forall x :: x in s[1..k] ==> x in s[..k];
      FindCharAt(s[1..], c, k - 1);
    }
  }

  /** A text contains every pattern written into it. */
  lemma ContainsMiddle(a: string, p: string, b: string)
    ensures Contains(a + p + b, p)
  {
    assert (a + p + b)[|a|..|a| + |p|] == p;
    assert OccursAt(a + p + b, p, |a|);
    ContainsOccurs(a + p + b, p);
  }

  /** The pieces of a split after the first are the split of the text after the first separator. */
  lemma {:induction false} SplitTail(s: string, sep: string)
    requires sep != [] && Contains(s, sep)
    ensures Find(s, sep) + |sep| <= |s|
    ensures Split(s, sep)[1..] == Split(s[Find(s, sep) + |sep|..], sep)
    decreases |s|
  {
    if IsPrefix(sep, s) {
      assert ([""] + Split(s[|sep|..], sep))[1..] == Split(s[|sep|..], sep);
    } else {
      assert s != [] && Contains(s[1..], sep);
      SplitTail(s[1..], sep);
      var k := Find(s[1..], sep);
      assert Find(s, sep) == k + 1;
      assert s[1..][k + |sep|..] == s[k + 1 + |sep|..];
      var rest := Split(s[1..], sep);
      assert Split(s, sep) == [[s[0]] + rest[0]] + rest[1..];
      assert ([[s[0]] + rest[0]] + rest[1..])[1..] == rest[1..];
    }
  }

  /** When the pattern occurs only once, replacing every occurrence replaces just the first. */
  lemma {:induction false} ReplaceSingleOccurrence(s: string, pat: string, rep: string)
    requires pat != [] && Contains(s, pat)
    requires !Contains(s[Find(s, pat) + |pat|..], pat)
    ensures ReplaceAll(s, pat, rep) == ReplaceFirst(s, pat, rep)
    decreases |s|
  {
    if IsPrefix(pat, s) {
      ReplaceAbsent(s[|pat|..], pat, rep);
    } else {
      FindAfterHead(s, pat);
      ReplaceSingleOccurrence(s[1..], pat, rep);
      ReplaceStepsAfterHead(s, pat, rep);
    }
  }

  /** Where the pattern does not start, both replacements keep the first character and go on after it. */
  lemma ReplaceStepsAfterHead(s: string, pat: string, rep: string)
    requires pat != [] && s != [] && !IsPrefix(pat, s)
    ensures ReplaceAll(s, pat, rep) == [s[0]] + ReplaceAll(s[1..], pat, rep)
    ensures ReplaceFirst(s, pat, rep) == [s[0]] + ReplaceFirst(s[1..], pat, rep)
  {
  }

  lemma DropAfterHead(s: string, n: nat)
    requires 1 <= n <= |s|
    ensures s[1..][n - 1..] == s[n..]
  {
  }

  /** An occurrence that is not at the start is found in the rest, one position further on. */
  lemma FindAfterHead(s: string, pat: string)
    requires Contains(s, pat) && !IsPrefix(pat, s)
    ensures s != [] && Contains(s[1..], pat) && Find(s, pat) == Find(s[1..], pat) + 1
    ensures s[1..][Find(s[1..], pat) + |pat|..] == s[Find(s, pat) + |pat|..]
  {
    DropAfterHead(s, Find(s, pat) + |pat|);
  }

  /** Replacing by something no longer never lengthens the text, and shortens it when the pattern occurs. */
  lemma {:induction false} ReplaceShortens(s: string, pat: string, rep: string)
    requires pat != [] && |rep| <= |pat|
    ensures |ReplaceAll(s, pat, rep)| <= |s|
    ensures Contains(s, pat) ==> |ReplaceAll(s, pat, rep)| <= |s| - (|pat| - |rep|)
    decreases |s|
  {
    if IsPrefix(pat, s) {
      ReplaceShortens(s[|pat|..], pat, rep);
    } else if s != [] {
      ReplaceShortens(s[1..], pat, rep);
    }
  }

  // ---------------------------------------------------------------------
  // Whitespace

  /** Python `c.isspace()`: the characters Python's `str.split()`, `strip()` and `\s` treat as whitespace. */
  predicate IsSpace(c: char) {
    ('\t' <= c <= '\r') || ('\U{1C}' <= c <= ' ') || c == '\U{85}' || c == '\U{A0}'
    || c == '\U{1680}' || ('\U{2000}' <= c <= '\U{200A}') || c == '\U{2028}' || c == '\U{2029}'
    || c == '\U{202F}' || c == '\U{205F}' || c == '\U{3000}'
  }

  /** Every character of `s` is whitespace (so Python `s.strip()` is empty). */
  predicate Blank(s: string) {
    forall i :: 0 <= i < |s| ==> IsSpace(s[i])
  }

  /** The longest prefix of `s` free of whitespace. */
  function LeadingWord(s: string): (w: string)
    ensures |w| <= |s| && w == s[..|w|]
    ensures forall i :: 0 <= i < |w| ==> !IsSpace(w[i])
    ensures |w| < |s| ==> IsSpace(s[|w|])
    decreases |s|
  {
    if s == [] || IsSpace(s[0]) then [] else [s[0]] + LeadingWord(s[1..])
  }

  /** Python `s.split()`: the maximal runs of non-whitespace characters, in order. */
  function Words(s: string): (ws: seq<string>)
    ensures forall k :: 0 <= k < |ws| ==> ws[k] != [] && !Contains(ws[k], " ")
    decreases |s|
  {
    if s == [] then []
    else if IsSpace(s[0]) then Words(s[1..])
    else
      var w := LeadingWord(s);
      NoSpaceNoBlankSubstring(w);
      [w] + Words(s[|w|..])
  }

  lemma {:induction false} NoSpaceNoBlankSubstring(w: string)
    requires forall i :: 0 <= i < |w| ==> !IsSpace(w[i])
    ensures !Contains(w, " ")
  {
    forall i | 0 <= i < |w| ensures !OccursAt(w, " ", i) {
      assert w[i..i + 1][0] == w[i];
    }
    ContainsOccurs(w, " ");
  }

  /** `s.split()` is empty exactly when `s` is blank. */
  lemma {:induction false} WordsEmptyIffBlank(s: string)
    ensures Words(s) == [] <==> Blank(s)
    decreases |s|
  {
    if s != [] {
      WordsEmptyIffBlank(s[1..]);
      assert forall i :: 1 <= i < |s| ==> s[i] == s[1..][i - 1];
    }
  }

  /** Python `s.lstrip()`. */
  function StripStart(s: string): string
    decreases |s|
  {
    if s != [] && IsSpace(s[0]) then StripStart(s[1..]) else s
  }

  /** `lstrip` removes a blank prefix and leaves no leading whitespace. */
  lemma {:induction false} StripStartShape(s: string)
    ensures var r := StripStart(s);
      |r| <= |s| && r == s[|s| - |r|..] && (r != [] ==> !IsSpace(r[0])) && Blank(s[..|s| - |r|])
    decreases |s|
  {
    if s != [] && IsSpace(s[0]) {
      StripStartShape(s[1..]);
      var r := StripStart(s[1..]);
      assert s[..|s| - |r|] == [s[0]] + s[1..][..|s| - 1 - |r|];
    }
  }

  /** Python `s.rstrip()`. */
  function StripEnd(s: string): string
    decreases |s|
  {
    if s != [] && IsSpace(s[|s| - 1]) then StripEnd(s[..|s| - 1]) else s
  }

  /** `rstrip` removes a blank suffix and leaves no trailing whitespace. */
  lemma {:induction false} StripEndShape(s: string)
    ensures var r := StripEnd(s);
      |r| <= |s| && r == s[..|r|] && (r != [] ==> !IsSpace(r[|r| - 1])) && Blank(s[|r|..])
    decreases |s|
  {
    if s != [] && IsSpace(s[|s| - 1]) {
      StripEndShape(s[..|s| - 1]);
      var r := StripEnd(s[..|s| - 1]);
      assert s[|r|..] == s[..|s| - 1][|r|..] + [s[|s| - 1]];
    }
  }

  /** Python `s.strip()`. */
  function Strip(s: string): string {
    StripEnd(StripStart(s))
  }

  /** `strip` leaves a piece of the text with whitespace at neither end. */
  lemma StripShape(s: string)
    ensures var r := Strip(s);
      |r| <= |s| && (r != [] ==> !IsSpace(r[0]) && !IsSpace(r[|r| - 1]))
  {
    StripStartShape(s);
    var a := StripStart(s);
    StripEndShape(a);
    var r := StripEnd(a);
    if r != [] {
      assert r[0] == a[0];
    }
  }

  /** A word does not run on into trailing whitespace. */
  lemma {:induction false} LeadingWordBlankSuffix(s: string, t: string)
    requires Blank(t)
    ensures LeadingWord(s + t) == LeadingWord(s)
    decreases |s|
  {
    if s == [] {
      if t != [] {
        assert IsSpace(t[0]);
      }
    } else if !IsSpace(s[0]) {
      LeadingWordBlankSuffix(s[1..], t);
      assert (s + t)[1..] == s[1..] + t;
    }
  }

  lemma {:induction false} WordsBlankSuffix(s: string, t: string)
    requires Blank(t)
    ensures Words(s + t) == Words(s)
    decreases |s|
  {
    if s == [] {
      assert s + t == t;
      WordsEmptyIffBlank(t);
    } else if IsSpace(s[0]) {
      assert (s + t)[1..] == s[1..] + t;
      WordsBlankSuffix(s[1..], t);
    } else {
      LeadingWordBlankSuffix(s, t);
      var w := LeadingWord(s);
      assert (s + t)[|w|..] == s[|w|..] + t;
      WordsBlankSuffix(s[|w|..], t);
    }
  }

  /** Python `s.strip().split()` equals `s.split()`. */
  lemma StripThenSplit(s: string)
    ensures Words(Strip(s)) == Words(s)
  {
    WordsStripStart(s);
    WordsStripEnd(StripStart(s));
  }

  lemma {:induction false} WordsStripStart(s: string)
    ensures Words(StripStart(s)) == Words(s)
    decreases |s|
  {
    if s != [] && IsSpace(s[0]) {
      WordsStripStart(s[1..]);
    }
  }

  lemma WordsStripEnd(a: string)
    ensures Words(StripEnd(a)) == Words(a)
  {
    StripEndShape(a);
    var r := StripEnd(a);
    assert a == r + a[|r|..];
    WordsBlankSuffix(r, a[|r|..]);
  }

  /** Python `s.strip()` is empty exactly when `s` is blank. */
  lemma StripEmptyIffBlank(s: string)
    ensures Strip(s) == [] <==> Blank(s)
  {
    StripStartShape(s);
    var a := StripStart(s);
    StripEndShape(a);
    var r := StripEnd(a);
    if r == [] {
      assert a[|r|..] == a;
      assert a == [];
      assert s[..|s| - |a|] == s;
    }
  }

  // ---------------------------------------------------------------------
  // Ordering

  /** Python's `a < b` on `str`: lexicographic by code point, a proper prefix first. */
  predicate Less(a: string, b: string)
    decreases |a|
  {
    |b| > 0 && (|a| == 0 || a[0] < b[0] || (a[0] == b[0] && Less(a[1..], b[1..])))
  }

  predicate LessEq(a: string, b: string) {
    a == b || Less(a, b)
  }

  lemma {:induction false} LessIrreflexive(a: string)
    ensures !Less(a, a)
    decreases |a|
  {
    if |a| > 0 {
      LessIrreflexive(a[1..]);
    }
  }

  lemma {:induction false} LessTransitive(a: string, b: string, c: string)
    requires Less(a, b) && Less(b, c)
    ensures Less(a, c)
    decreases |a|
  {
    if |a| > 0 && a[0] == b[0] && b[0] == c[0] {
      LessTransitive(a[1..], b[1..], c[1..]);
    }
  }

  lemma {:induction false} LessTotal(a: string, b: string)
    ensures a == b || Less(a, b) || Less(b, a)
    decreases |a|
  {
    if |a| > 0 && |b| > 0 && a[0] == b[0] {
      LessTotal(a[1..], b[1..]);
      if a[1..] == b[1..] {
        assert a == [a[0]] + a[1..] && b == [b[0]] + b[1..];
      }
    }
  }

  lemma LessAsymmetric(a: string, b: string)
    requires Less(a, b)
    ensures !Less(b, a)
  {
    if Less(b, a) {
      LessTransitive(a, b, a);
      LessIrreflexive(a);
    }
  }

  /** Strictly increasing: sorted and free of duplicates. */
  predicate StrictlySorted(s: seq<string>) {
    forall i, j :: 0 <= i < j < |s| ==> Less(s[i], s[j])
  }

  /** Non-decreasing. */
  predicate Sorted(s: seq<string>) {
    forall i, j :: 0 <= i < j < |s| ==> LessEq(s[i], s[j])
  }

  /** Inserts `x` into the sorted sequence `s` after every element not greater than it. */
  function Insert(x: string, s: seq<string>): (r: seq<string>)
    requires Sorted(s)
    ensures Sorted(r)
    ensures multiset(r) == multiset(s) + multiset{x}
    decreases |s|
  {
    if s == [] then [x]
    else if Less(x, s[0]) then
      InsertBeforeHead(x, s);
      [x] + s
    else
      var r := Insert(x, s[1..]);
      InsertAfterHead(x, s, r);
      [s[0]] + r
  }

  /** A text less than the head of a sorted sequence may go in front of it. */
  lemma InsertBeforeHead(x: string, s: seq<string>)
    requires Sorted(s) && s != [] && Less(x, s[0])
    ensures Sorted([x] + s)
  {
    assert forall j :: 0 < j < |s| ==> Less(x, s[j]) by {
      forall j | 0 < j < |s| ensures Less(x, s[j]) {
        if s[0] != s[j] { LessTransitive(x, s[0], s[j]); }
      }
    }
  }

  /** A text not less than the head goes into the tail, which stays above the head. */
  lemma InsertAfterHead(x: string, s: seq<string>, r: seq<string>)
    requires Sorted(s) && s != [] && !Less(x, s[0])
    requires Sorted(r) && multiset(r) == multiset(s[1..]) + multiset{x}
    ensures Sorted([s[0]] + r)
    ensures multiset([s[0]] + r) == multiset(s) + multiset{x}
  {
    LessTotal(x, s[0]);
    assert forall j :: 0 <= j < |r| ==> LessEq(s[0], r[j]) by {
      forall j | 0 <= j < |r| ensures LessEq(s[0], r[j]) {
        assert r[j] in multiset(r);
        assert r[j] == x || r[j] in multiset(s[1..]);
        if r[j] != x {
          var k :| 1 <= k < |s| && s[k] == r[j];
        }
      }
    }
    assert s == [s[0]] + s[1..];
  }

  /** Python `sorted(xs)` on a list of `str`: a sorted permutation of `xs`. */
  function SortStrings(xs: seq<string>): (r: seq<string>)
    ensures Sorted(r)
    ensures multiset(r) == multiset(xs)
    decreases |xs|
  {
    if xs == [] then []
    else
      assert xs == [xs[0]] + xs[1..];
      Insert(xs[0], SortStrings(xs[1..]))
  }

  // ---------------------------------------------------------------------
  // Reading a text file line by line

  /** String concatenation regroups freely. */
  lemma Associative(a: string, b: string, c: string)
    ensures a + b + c == a + (b + c)
  {
  }

  /** `"".join` of a list is its head followed by the join of its tail. */
  lemma ConcatCons(x: string, ys: seq<string>)
    ensures Concat([x] + ys) == x + Concat(ys)
  {
    if ys != [] {
      assert ([x] + ys)[1..] == ys;
    }
  }

  /**
   * Universal-newline translation on reading a file in text mode: `\r\n`
   * and a lone `\r` both become `\n`.
   */
  function UniversalNewlines(s: string): (r: string)
    ensures '\r' !in r
    decreases |s|
  {
    if s == [] then []
    else if s[0] == '\r' && |s| >= 2 && s[1] == '\n' then "\n" + UniversalNewlines(s[2..])
    else if s[0] == '\r' then "\n" + UniversalNewlines(s[1..])
    else [s[0]] + UniversalNewlines(s[1..])
  }

  /** Text without `\r` reads back unchanged. */
  lemma {:induction false} UniversalNewlinesPlain(s: string)
    requires '\r' !in s
    ensures UniversalNewlines(s) == s
    decreases |s|
  {
    if s != [] {
      UniversalNewlinesPlain(s[1..]);
    }
  }

  /** The text cut after every `\n`; a last piece without one is kept. */
  function SplitKeepEnds(s: string): (r: seq<string>)
    ensures forall j :: 0 <= j < |r| ==> r[j] != []
    decreases |s|
  {
    if s == [] then []
    else
      var rest := SplitKeepEnds(s[1..]);
      if s[0] == '\n' || rest == [] then [[s[0]]] + rest
      else [[s[0]] + rest[0]] + rest[1..]
  }

  /** Python `f.readlines()` on a file opened for reading in text mode. */
  function ReadLines(text: string): seq<string> {
    SplitKeepEnds(UniversalNewlines(text))
  }

  /** A line as `readlines` yields it: non-empty, with no `\r` and `\n` at most at its end. */
  predicate LineShape(l: string) {
    l != [] && '\r' !in l && '\n' !in l[..|l| - 1]
  }

  /** The line ends with `\n`. */
  predicate EndsLine(l: string) {
    l != [] && l[|l| - 1] == '\n'
  }

  /** A list of lines as `readlines` yields it: every line but the last ends with `\n`. */
  predicate LinesShape(ls: seq<string>) {
    (forall j :: 0 <= j < |ls| ==> LineShape(ls[j])) &&
    (forall j :: 0 <= j < |ls| - 1 ==> EndsLine(ls[j]))
  }

  /** Writing the lines back (`writelines`) gives the text they were cut from. */
  lemma {:induction false} SplitKeepEndsConcat(s: string)
    ensures Concat(SplitKeepEnds(s)) == s
    decreases |s|
  {
    if s != [] {
      var rest := SplitKeepEnds(s[1..]);
      SplitKeepEndsConcat(s[1..]);
      if s[0] == '\n' || rest == [] {
        ConcatCons([s[0]], rest);
      } else {
        JoinConsChar(s[0], rest, "");
      }
    }
  }

  /** Text without `\r` is cut into lines of the shape `readlines` promises. */
  lemma {:induction false} SplitKeepEndsShape(s: string)
    requires '\r' !in s
    ensures LinesShape(SplitKeepEnds(s))
    decreases |s|
  {
    if s != [] {
      var rest := SplitKeepEnds(s[1..]);
      SplitKeepEndsShape(s[1..]);
      var r := SplitKeepEnds(s);
      if s[0] == '\n' || rest == [] {
        assert r[1..] == rest;
        assert LineShape(r[0]);
        assert s[0] != '\n' ==> rest == [] && |r| == 1;
      } else {
        assert r[0] == [s[0]] + rest[0];
        assert r[0][..|r[0]| - 1] == [s[0]] + rest[0][..|rest[0]| - 1];
        assert r[1..] == rest[1..];
      }
    }
  }

  /** The lines of any text have the shape `readlines` promises. */
  lemma ReadLinesShape(text: string)
    ensures LinesShape(ReadLines(text))
  {
    SplitKeepEndsShape(UniversalNewlines(text));
  }

  /** A line that ends with `\n`, or is the last, is cut off whole. */
  lemma {:induction false} SplitAfterLine(l: string, rest: string)
    requires l != [] && '\n' !in l[..|l| - 1]
    requires EndsLine(l) || rest == []
    ensures SplitKeepEnds(l + rest) == [l] + SplitKeepEnds(rest)
    decreases |l|
  {
    var s := l + rest;
    if |l| == 1 {
      assert s[1..] == rest;
      assert l == [s[0]];
      assert s[0] != '\n' ==> SplitKeepEnds(rest) == [];
    } else {
      assert l[0] != '\n' by { assert l[0] == l[..|l| - 1][0]; }
      assert s[1..] == l[1..] + rest;
      assert l[1..][..|l| - 2] == l[..|l| - 1][1..];
      SplitAfterLine(l[1..], rest);
      assert [l[0]] + l[1..] == l;
    }
  }

  /** A character found in none of the lines is not in their concatenation. */
  lemma {:induction false} ConcatFree(ls: seq<string>, c: char)
    requires forall j :: 0 <= j < |ls| ==> c !in ls[j]
    ensures c !in Concat(ls)
    decreases |ls|
  {
    if ls != [] {
      ConcatCons(ls[0], ls[1..]);
      assert ls == [ls[0]] + ls[1..];
      ConcatFree(ls[1..], c);
    }
  }

  /** Lines of the shape `readlines` yields read back as written. */
  lemma {:induction false} ReadLinesConcat(ls: seq<string>)
    requires LinesShape(ls)
    ensures ReadLines(Concat(ls)) == ls
    decreases |ls|
  {
    if ls != [] {
      var t := ls[1..];
      assert ls == [ls[0]] + t;
      ConcatCons(ls[0], t);
      assert LinesShape(t) by {
        assert forall j :: 0 <= j < |t| ==> t[j] == ls[j + 1];
      }
      ReadLinesConcat(t);
      ConcatFree(ls, '\r');
      ConcatFree(t, '\r');
      UniversalNewlinesPlain(Concat(ls));
      UniversalNewlinesPlain(Concat(t));
      assert t != [] ==> EndsLine(ls[0]);
      SplitAfterLine(ls[0], Concat(t));
    }
  }
}
