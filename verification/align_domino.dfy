/**
 * align_domino.py: clean a space-separated phoneme string before forced
 * alignment and render the aligner's (start, end, phoneme) triples as
 * tab-separated label lines in hundred-nanosecond ticks.
 *
 * The aligner itself (`pydomino.Aligner.align`) and audio loading are
 * outside the model: the aligner is a function parameter.
 */
module AlignDomino {
  import opened Wrappers
  import opened Strings
  import opened Numerals

  // ---------------------------------------------------------------------
  // pre_cleanup, phase 1: tokens

  /** The rewrites of `pre_cleanup`, applied in this order. */
  const ReplaceList: seq<(string, string)> := [
    ("U a", "u a"),
    ("U e", "u e"),
    ("U i", "u i"),
    ("U o", "u o"),
    ("U u", "u u"),
    ("U cl", "u cl"),
    ("U N", "u N"),
    ("ty", "t"),
    ("kw", "k"),
    ("gw", "g")
  ]

  /** `[t for t in p if t != ""]`. */
  function NonEmpty(p: seq<string>): (r: seq<string>)
    ensures forall k :: 0 <= k < |r| ==> r[k] != ""
    ensures forall x :: x in r <==> x in p && x != ""
  {
    if p == [] then []
    else (if p[0] != "" then [p[0]] else []) + NonEmpty(p[1..])
  }

  /** `text.split(" ")` with the empty pieces dropped. */
  function Tokens(text: string): seq<string> {
    NonEmpty(Split(text, " "))
  }

  /** Every token is non-empty and free of spaces. */
  lemma TokensAreWords(text: string)
    ensures forall k :: 0 <= k < |Tokens(text)| ==> Tokens(text)[k] != "" && ' ' !in Tokens(text)[k]
  {
    var pieces := Split(text, " ");
    SplitPiecesFree(text, ' ');
    forall k | 0 <= k < |Tokens(text)| ensures Tokens(text)[k] != "" && ' ' !in Tokens(text)[k] {
      var x := Tokens(text)[k];
      assert x in pieces;
      var j :| 0 <= j < |pieces| && pieces[j] == x;
    }
  }

  /** A text made of spaces only has no tokens. */
  lemma {:induction false} SpacesOnlyHaveNoTokens(text: string)
    requires forall i :: 0 <= i < |text| ==> text[i] == ' '
    ensures Tokens(text) == []
    decreases |text|
  {
    if text != [] {
      SpacesOnlyHaveNoTokens(text[1..]);
    }
  }

  /** No leading, trailing or doubled space. */
  predicate WellSpaced(s: string) {
    s == "" ||
    (s[0] != ' ' && s[|s| - 1] != ' ' &&
     forall i :: 0 <= i < |s| - 1 ==> !(s[i] == ' ' && s[i + 1] == ' '))
  }

  /** Joining non-empty, space-free tokens with single spaces gives a well-spaced string. */
  lemma {:induction false} JoinWellSpaced(xs: seq<string>)
    requires forall k :: 0 <= k < |xs| ==> xs[k] != "" && ' ' !in xs[k]
    ensures WellSpaced(Join(xs, " "))
    ensures |xs| > 0 ==> Join(xs, " ") != ""
    decreases |xs|
  {
    if |xs| > 1 {
      JoinWellSpaced(xs[1..]);
      var j := Join(xs[1..], " ");
      var s := xs[0] + " " + j;
      forall i | 0 <= i < |s| - 1 ensures !(s[i] == ' ' && s[i + 1] == ' ') {
        if i < |xs[0]| {
          assert s[i] == xs[0][i];
        } else if i > |xs[0]| {
          assert s[i] == j[i - |xs[0]| - 1] && s[i + 1] == j[i - |xs[0]|];
        }
      }
    }
  }

  // ---------------------------------------------------------------------
  // pre_cleanup, phase 2: merging runs of "N"

  /**
   * The tokens with every "N" that directly follows an "N" removed, so that
   * each maximal run of "N" becomes a single "N".
   */
  function CollapseN(s: seq<string>): (r: seq<string>)
    ensures |r| <= |s|
    ensures |s| > 0 ==> |r| > 0 && r[|r| - 1] == s[|s| - 1]
    ensures forall x :: x in r ==> x in s
    decreases |s|
  {
    if |s| <= 1 then s
    else
      var init := CollapseN(s[..|s| - 1]);
      assert s == s[..|s| - 1] + [s[|s| - 1]];
      if s[|s| - 2] == "N" && s[|s| - 1] == "N" then init else init + [s[|s| - 1]]
  }

  /** No two adjacent tokens are both "N". */
  predicate NoAdjacentN(s: seq<string>) {
    forall i :: 0 <= i < |s| - 1 ==> !(s[i] == "N" && s[i + 1] == "N")
  }

  /** The tokens other than "N", in order. */
  function Others(s: seq<string>): seq<string>
    decreases |s|
  {
    if s == [] then []
    else Others(s[..|s| - 1]) + (if s[|s| - 1] != "N" then [s[|s| - 1]] else [])
  }

  /** The number of maximal runs of "N". */
  function Runs(s: seq<string>): nat
    decreases |s|
  {
    if s == [] then 0
    else Runs(s[..|s| - 1]) + (if s[|s| - 1] == "N" && (|s| == 1 || s[|s| - 2] != "N") then 1 else 0)
  }

  /** After merging, no two adjacent tokens are both "N". */
  lemma {:induction false} CollapseHasNoAdjacentN(s: seq<string>)
    ensures NoAdjacentN(CollapseN(s))
    decreases |s|
  {
    if |s| > 1 {
      CollapseHasNoAdjacentN(s[..|s| - 1]);
    }
  }

  /** Merging keeps every token other than "N", in order. */
  lemma {:induction false} CollapseKeepsOthers(s: seq<string>)
    ensures Others(CollapseN(s)) == Others(s)
    decreases |s|
  {
    if |s| > 1 {
      var init := CollapseN(s[..|s| - 1]);
      CollapseKeepsOthers(s[..|s| - 1]);
      assert (init + [s[|s| - 1]])[..|init|] == init;
    }
  }

  /** Each maximal run of "N" leaves exactly one "N" behind. */
  lemma {:induction false} CollapseOneNPerRun(s: seq<string>)
    ensures multiset(CollapseN(s))["N"] == Runs(s)
    decreases |s|
  {
    if |s| > 1 {
      CollapseOneNPerRun(s[..|s| - 1]);
      assert s[..|s| - 1][..|s| - 2] == s[..|s| - 2];
    } else if |s| == 1 {
      assert s == [s[0]];
    }
  }

  /** Tokens without adjacent "N"s are left as they are. */
  lemma {:induction false} CollapseIdentity(s: seq<string>)
    requires NoAdjacentN(s)
    ensures CollapseN(s) == s
    decreases |s|
  {
    if |s| > 1 {
      CollapseIdentity(s[..|s| - 1]);
    }
  }

  /** One more token of input extends the merged prefix by at most that token. */
  lemma CollapseStep(s: seq<string>, k: nat)
    requires k + 1 < |s|
    ensures CollapseN(s[..k + 2]) ==
      if s[k] == "N" && s[k + 1] == "N" then CollapseN(s[..k + 1]) else CollapseN(s[..k + 1]) + [s[k + 1]]
  {
    assert s[..k + 2][..k + 1] == s[..k + 1];
  }

  /**
   * One iteration of the merge loop: the list being edited is the merged
   * prefix followed by the unread tokens, and popping (or not) keeps it so.
   */
  lemma MergeIteration(tokens: seq<string>, i: nat, offset: nat, p: seq<string>)
    requires offset <= i && i + 1 < |tokens|
    requires p == CollapseN(tokens[..i + 1]) + tokens[i + 1..]
    requires |CollapseN(tokens[..i + 1])| == i + 1 - offset
    ensures i - offset + 1 < |p| && p[i - offset] == tokens[i] && p[i - offset + 1] == tokens[i + 1]
    ensures tokens[i] == "N" && tokens[i + 1] == "N" ==>
      p[..i - offset + 1] + p[i - offset + 2..] == CollapseN(tokens[..i + 2]) + tokens[i + 2..] &&
      |CollapseN(tokens[..i + 2])| == i + 1 - offset
    ensures !(tokens[i] == "N" && tokens[i + 1] == "N") ==>
      p == CollapseN(tokens[..i + 2]) + tokens[i + 2..] &&
      |CollapseN(tokens[..i + 2])| == i + 2 - offset
  {
    var done := CollapseN(tokens[..i + 1]);
    CollapseStep(tokens, i);
    assert tokens[i + 1..] == [tokens[i + 1]] + tokens[i + 2..];
    assert p[..i - offset + 1] == done;
    assert p[i - offset + 2..] == tokens[i + 2..];
    assert p == (done + [tokens[i + 1]]) + tokens[i + 2..];
  }

  /** The merge loop of `pre_cleanup`: pops from the list while walking it with an offset. */
  method MergeRepeatedN(tokens: seq<string>) returns (p: seq<string>)
    ensures p == CollapseN(tokens)
  {
    p := tokens;
    if |tokens| == 0 {
      return;
    }
    var offset := 0;
    var i := 0;
    assert p == CollapseN(tokens[..1]) + tokens[1..];
    while i < |tokens| - 1
      invariant 0 <= offset <= i < |tokens|
      invariant p == CollapseN(tokens[..i + 1]) + tokens[i + 1..]
      invariant |CollapseN(tokens[..i + 1])| == i + 1 - offset
    {
      MergeIteration(tokens, i, offset, p);
      if p[i - offset] == "N" && p[i - offset + 1] == "N" {
        p := p[..i - offset + 1] + p[i - offset + 2..];
        offset := offset + 1;
      }
      i := i + 1;
    }
    assert tokens[..i + 1] == tokens;
  }

  // ---------------------------------------------------------------------
  // pre_cleanup, phase 3: ordered rewrites

  predicate PatternsNonEmpty(rs: seq<(string, string)>) {
    forall k :: 0 <= k < |rs| ==> rs[k].0 != []
  }

  /** `for r in rs: s = s.replace(r[0], r[1])`, as a specification. */
  function ApplyReplacements(s: string, rs: seq<(string, string)>): string
    requires PatternsNonEmpty(rs)
    decreases |rs|
  {
    if rs == [] then s else ApplyReplacements(ReplaceAll(s, rs[0].0, rs[0].1), rs[1..])
  }

  /** The loop over the rewrite table. */
  method RunReplacements(s: string, rs: seq<(string, string)>) returns (p: string)
    requires PatternsNonEmpty(rs)
    ensures p == ApplyReplacements(s, rs)
  {
    p := s;
    for k := 0 to |rs|
      invariant ApplyReplacements(p, rs[k..]) == ApplyReplacements(s, rs)
    {
      assert rs[k..][1..] == rs[k + 1..];
      p := ReplaceAll(p, rs[k].0, rs[k].1);
    }
  }

  /** Every pattern of `rs` holds as many spaces as its replacement. */
  predicate KeepsSpaces(rs: seq<(string, string)>) {
    forall k :: 0 <= k < |rs| ==> multiset(rs[k].0)[' '] == multiset(rs[k].1)[' ']
  }

  /** Rewrites that keep spaces keep the number of spaces. */
  lemma {:induction false} ApplyKeepsSpaces(s: string, rs: seq<(string, string)>)
    requires PatternsNonEmpty(rs) && KeepsSpaces(rs)
    ensures multiset(ApplyReplacements(s, rs))[' '] == multiset(s)[' ']
    decreases |rs|
  {
    if rs != [] {
      ReplaceKeepsCount(s, rs[0].0, rs[0].1, ' ');
      ApplyKeepsSpaces(ReplaceAll(s, rs[0].0, rs[0].1), rs[1..]);
    }
  }

  /** The table of `pre_cleanup` has non-empty patterns that keep spaces. */
  lemma ReplaceListKeepsSpaces()
    ensures PatternsNonEmpty(ReplaceList) && KeepsSpaces(ReplaceList)
  {
    forall k | 0 <= k < |ReplaceList|
      ensures ReplaceList[k].0 != [] && multiset(ReplaceList[k].0)[' '] == multiset(ReplaceList[k].1)[' ']
    {
      var (pat, rep) := ReplaceList[k];
      if k < 7 {
        assert pat[0] == 'U' && rep[0] == 'u' && pat[1..] == rep[1..];
        CaseSwapKeepsSpaces(pat, rep);
      } else {
        assert ' ' !in pat && ' ' !in rep;
      }
    }
  }

  /** Two texts that differ only in a first character other than a space hold as many spaces. */
  lemma CaseSwapKeepsSpaces(a: string, b: string)
    requires a != [] && b != [] && a[0] != ' ' && b[0] != ' ' && a[1..] == b[1..]
    ensures multiset(a)[' '] == multiset(b)[' ']
  {
    assert a == [a[0]] + a[1..] && b == [b[0]] + b[1..];
  }

  // ---------------------------------------------------------------------
  // pre_cleanup as a whole

  /** What `pre_cleanup(text)` returns. */
  function Cleaned(text: string): string {
    ReplaceListKeepsSpaces();
    ApplyReplacements(Join(CollapseN(Tokens(text)), " "), ReplaceList)
  }

  /** `pre_cleanup`: split and filter, merge "N" runs with the pop loop, then rewrite. */
  method PreCleanup(text: string) returns (r: string)
    ensures r == Cleaned(text)
  {
    var p := Tokens(text);
    p := MergeRepeatedN(p);
    var joined := Join(p, " ");
    ReplaceListKeepsSpaces();
    r := RunReplacements(joined, ReplaceList);
  }

  /** The merged tokens are non-empty and free of spaces. */
  lemma MergedAreWords(text: string)
    ensures forall k :: 0 <= k < |CollapseN(Tokens(text))| ==>
      CollapseN(Tokens(text))[k] != "" && ' ' !in CollapseN(Tokens(text))[k]
  {
    var t := Tokens(text);
    var m := CollapseN(t);
    TokensAreWords(text);
    forall k | 0 <= k < |m| ensures m[k] != "" && ' ' !in m[k] {
      assert m[k] in m;
    }
  }

  /** The string joined before the rewrites has no leading, trailing or doubled space. */
  lemma JoinedIsWellSpaced(text: string)
    ensures WellSpaced(Join(CollapseN(Tokens(text)), " "))
  {
    MergedAreWords(text);
    JoinWellSpaced(CollapseN(Tokens(text)));
  }

  /** The rewrites do not change the number of space-separated tokens. */
  lemma CleanedTokenCount(text: string)
    requires Tokens(text) != []
    ensures |Split(Cleaned(text), " ")| == |CollapseN(Tokens(text))|
  {
    var m := CollapseN(Tokens(text));
    MergedAreWords(text);
    JoinCount(m, ' ');
    ReplaceListKeepsSpaces();
    ApplyKeepsSpaces(Join(m, " "), ReplaceList);
    SplitCount(Cleaned(text), ' ');
  }

  /** Spaces-only input is cleaned to the empty string. */
  lemma SpacesOnlyCleanToEmpty(text: string)
    requires forall i :: 0 <= i < |text| ==> text[i] == ' '
    ensures Cleaned(text) == ""
  {
    SpacesOnlyHaveNoTokens(text);
    ReplaceListKeepsSpaces();
    EmptyStaysEmpty(ReplaceList);
  }

  /** Every rewrite pattern ends in a letter. */
  lemma RulesEndInLetters()
    ensures forall k :: 0 <= k < |ReplaceList| ==>
      ReplaceList[k].0 != [] && !IsSpace(ReplaceList[k].0[|ReplaceList[k].0| - 1])
  {
  }

  /**
   * Only the space character separates tokens: a text of other whitespace
   * (tabs, newlines) is one token, which the rewrites leave alone.
   */
  lemma OtherWhitespaceSurvives(text: string)
    requires text != [] && Blank(text) && ' ' !in text
    ensures Cleaned(text) == text
  {
    SplitWithoutSeparator(text, ' ');
    assert Split(text, " ") == [text];
    assert [text][1..] == [];
    assert NonEmpty([text]) == [text] + NonEmpty([]);
    assert Tokens(text) == [text];
    assert Join(CollapseN([text]), " ") == text;
    ReplaceListKeepsSpaces();
    RulesEndInLetters();
    SkipAbsentPrefix(text, ReplaceList, |ReplaceList|);
    assert ReplaceList[|ReplaceList|..] == [];
  }

  lemma {:induction false} EmptyStaysEmpty(rs: seq<(string, string)>)
    requires PatternsNonEmpty(rs)
    ensures ApplyReplacements("", rs) == ""
    decreases |rs|
  {
    if rs != [] {
      EmptyStaysEmpty(rs[1..]);
    }
  }

  /**
   * A later rewrite can re-create an earlier pattern: "U U cl" ends as
   * "U u cl", which still contains "U u".
   */
  lemma LaterRewriteRecreatesPattern(text: string)
    requires text == "U U cl"
    ensures Cleaned(text) == "U u cl"
    ensures Contains(Cleaned(text), "U u")
  {
    ExampleTokens();
    ExampleRewrites(text, ReplaceList);
    assert IsPrefix("U u", "U u cl");
  }

  lemma ExampleTokens()
    ensures Join(CollapseN(Tokens("U U cl")), " ") == "U U cl"
  {
    assert "U U cl" == "U" + [' '] + "U cl";
    assert "U cl" == "U" + [' '] + "cl";
    SplitAfterPiece("U", ' ', "U cl");
    SplitAfterPiece("U", ' ', "cl");
    SplitWithoutSeparator("cl", ' ');
    assert Split("U U cl", " ") == ["U", "U", "cl"];
    ExampleTokensKept();
  }

  /** Evaluated apart from the split, where it is cheap: no token is dropped or merged. */
  lemma ExampleTokensKept()
    ensures NonEmpty(["U", "U", "cl"]) == ["U", "U", "cl"]
    ensures CollapseN(["U", "U", "cl"]) == ["U", "U", "cl"]
  {
  }

  /** A rewrite whose pattern does not occur can be skipped. */
  lemma SkipAbsent(s: string, rs: seq<(string, string)>, j: nat)
    requires PatternsNonEmpty(rs) && rs != []
    requires j < |rs[0].0| && rs[0].0[j] !in s
    ensures ApplyReplacements(s, rs) == ApplyReplacements(s, rs[1..])
  {
    AbsentCharRulesOut(s, rs[0].0, j);
    ReplaceAbsent(s, rs[0].0, rs[0].1);
  }

  lemma ExampleRewrites(s: string, rs: seq<(string, string)>)
    requires s == "U U cl" && rs == ReplaceList
    ensures ApplyReplacements(s, rs) == "U u cl"
  {
    ExampleFirstSix(s, rs);
    ExampleLastFour("U u cl", rs[6..]);
  }

  /** The first six rules turn "U U cl" into "U u cl". */
  lemma ExampleFirstSix(s: string, rs: seq<(string, string)>)
    requires s == "U U cl" && rs == ReplaceList
    ensures ApplyReplacements(s, rs) == ApplyReplacements("U u cl", rs[6..])
  {
    ReplaceListKeepsSpaces();
    VowelRulesAbsent(s, rs);
    SkipAbsentPrefix(s, rs, 5);
    ExampleUcl(s, rs[5].0, rs[5].1);
    assert rs[5..][1..] == rs[6..];
  }

  /** The last four rules leave "U u cl" alone. */
  lemma ExampleLastFour(t: string, rs: seq<(string, string)>)
    requires t == "U u cl" && rs == ReplaceList[6..]
    ensures ApplyReplacements(t, rs) == t
  {
    ReplaceListKeepsSpaces();
    LastRulesAbsent(t, rs);
    assert PatternsNonEmpty(rs);
    SkipAbsentPrefix(t, rs, 4);
    assert rs[4..] == [];
  }

  /** The "U <vowel>" rules end in a lower-case vowel, which "U U cl" does not hold. */
  lemma VowelRulesAbsent(s: string, rs: seq<(string, string)>)
    requires s == "U U cl" && rs == ReplaceList
    ensures forall k :: 0 <= k < 5 ==> rs[k].0 != [] && rs[k].0[|rs[k].0| - 1] !in s
  {
    assert rs[0].0 == "U a" && rs[1].0 == "U e" && rs[2].0 == "U i";
    assert rs[3].0 == "U o" && rs[4].0 == "U u";
  }

  /** The last four rules end in "N", "y", "w" and "w", which "U u cl" does not hold. */
  lemma LastRulesAbsent(t: string, rs: seq<(string, string)>)
    requires t == "U u cl" && rs == ReplaceList[6..]
    ensures |rs| == 4 && forall k :: 0 <= k < 4 ==> rs[k].0 != [] && rs[k].0[|rs[k].0| - 1] !in t
  {
    assert rs == [("U N", "u N"), ("ty", "t"), ("kw", "k"), ("gw", "g")];
  }

  /** Leading rewrites whose patterns end in a character the text lacks can all be skipped. */
  lemma {:induction false} SkipAbsentPrefix(s: string, rs: seq<(string, string)>, n: nat)
    requires PatternsNonEmpty(rs) && n <= |rs|
    requires forall k :: 0 <= k < n ==> rs[k].0[|rs[k].0| - 1] !in s
    ensures ApplyReplacements(s, rs) == ApplyReplacements(s, rs[n..])
    decreases n
  {
    if n > 0 {
      SkipAbsent(s, rs, |rs[0].0| - 1);
      SkipAbsentPrefix(s, rs[1..], n - 1);
      assert rs[1..][n - 1..] == rs[n..];
    }
  }

  lemma ExampleUcl(s: string, pat: string, rep: string)
    requires s == "U U cl" && pat == "U cl" && rep == "u cl"
    ensures ReplaceAll(s, pat, rep) == "U u cl"
  {
    assert s[1..] == " U cl" && s[2..] == "U cl" && s[2..][|pat|..] == [];
    assert !IsPrefix(pat, s) && !IsPrefix(pat, s[1..]) && IsPrefix(pat, s[2..]);
    assert ReplaceAll(s[2..], pat, rep) == rep + ReplaceAll([], pat, rep) == rep;
    assert ReplaceAll(s[1..], pat, rep) == [s[1]] + ReplaceAll(s[2..], pat, rep);
    assert ReplaceAll(s, pat, rep) == [s[0]] + ReplaceAll(s[1..], pat, rep);
  }

  // ---------------------------------------------------------------------
  // From the aligner's output to label text

  /** A triple as the aligner returns it, times in seconds. */
  datatype SecondsTriple = SecondsTriple(start: real, end: real, symbol: string)

  /** A triple with times in hundred-nanosecond ticks. */
  datatype TickTriple = TickTriple(start: int, end: int, symbol: string)

  /** Python `int(x)`: truncation toward zero. */
  function Truncate(x: real): (n: int)
    ensures x >= 0.0 ==> n as real <= x < n as real + 1.0
    ensures x < 0.0 ==> n as real - 1.0 < x <= n as real
  {
    if x >= 0.0 then x.Floor else -((-x).Floor)
  }

  /** `int(seconds * 1000 * 1000 * 10 + 0.5)`. */
  function Ticks(seconds: real): int {
    Truncate(seconds * 10000000.0 + 0.5)
  }

  /** For a non-negative time the tick count is the nearest integer, halves rounded up. */
  lemma TicksRoundHalfUp(seconds: real)
    requires seconds >= 0.0
    ensures Ticks(seconds) as real - 0.5 <= seconds * 10000000.0 < Ticks(seconds) as real + 0.5
  {
  }

  /** Later times never get fewer ticks. */
  lemma TicksMonotone(a: real, b: real)
    requires 0.0 <= a <= b
    ensures Ticks(a) <= Ticks(b)
  {
  }

  /** The tick conversion of the aligner's output. */
  function ToTicks(z: seq<SecondsTriple>): (r: seq<TickTriple>)
    ensures |r| == |z|
    ensures forall k :: 0 <= k < |z| ==> r[k].symbol == z[k].symbol
    ensures forall k :: 0 <= k < |z| && 0.0 <= z[k].start <= z[k].end ==> r[k].start <= r[k].end
  {
    seq(|z|, k requires 0 <= k < |z| => TickTriple(Ticks(z[k].start), Ticks(z[k].end), z[k].symbol))
  }

  /** `f"{a}\t{b}\t{q}"`. */
  function LabelLine(t: TickTriple): string {
    IntToString(t.start) + "\t" + IntToString(t.end) + "\t" + t.symbol
  }

  function LabelLines(z: seq<TickTriple>): (r: seq<string>)
    ensures |r| == |z|
    ensures forall k :: 0 <= k < |z| ==> r[k] == LabelLine(z[k])
  {
    seq(|z|, k requires 0 <= k < |z| => LabelLine(z[k]))
  }

  /** `'\n'.join(...)` of the label lines: no trailing newline. */
  function Serialize(z: seq<TickTriple>): string {
    Join(LabelLines(z), "\n")
  }

  /** A symbol that can stand in a label line. */
  predicate PlainSymbol(q: string) {
    '\t' !in q && '\n' !in q
  }

  predicate IsIntText(s: string) {
    |s| > 0 && (if s[0] == '-' then AllDigits(s[1..]) else AllDigits(s))
  }

  /** Reads one label line back: three tab-separated fields, the first two integers. */
  function ParseLabelLine(line: string): Option<TickTriple> {
    var f := Split(line, "\t");
    if |f| == 3 && IsIntText(f[0]) && IsIntText(f[1])
    then Some(TickTriple(ParseInt(f[0]), ParseInt(f[1]), f[2]))
    else None
  }

  function ParseLines(lines: seq<string>): Option<seq<TickTriple>>
    decreases |lines|
  {
    if lines == [] then Some([])
    else match (ParseLabelLine(lines[0]), ParseLines(lines[1..]))
      case (Some(t), Some(ts)) => Some([t] + ts)
      case _ => None
  }

  /** Reads label text back into triples; the empty text holds no triple. */
  function ParseLabels(text: string): Option<seq<TickTriple>> {
    if text == "" then Some([]) else ParseLines(Split(text, "\n"))
  }

  /** A label line splits on tabs into its three fields. */
  lemma LabelLineFields(t: TickTriple)
    requires PlainSymbol(t.symbol)
    ensures Split(LabelLine(t), "\t") == [IntToString(t.start), IntToString(t.end), t.symbol]
  {
    IntToStringRoundTrip(t.start);
    IntToStringRoundTrip(t.end);
    var a, b := IntToString(t.start), IntToString(t.end);
    assert LabelLine(t) == a + "\t" + (b + "\t" + t.symbol);
    SplitAfterPiece(a, '\t', b + "\t" + t.symbol);
    SplitAfterPiece(b, '\t', t.symbol);
    SplitWithoutSeparator(t.symbol, '\t');
  }

  lemma LabelLineRoundTrip(t: TickTriple)
    requires PlainSymbol(t.symbol)
    ensures '\n' !in LabelLine(t)
    ensures ParseLabelLine(LabelLine(t)) == Some(t)
  {
    LabelLineFields(t);
    IntToStringRoundTrip(t.start);
    IntToStringRoundTrip(t.end);
  }

  lemma {:induction false} ParseLinesRoundTrip(z: seq<TickTriple>)
    requires forall k :: 0 <= k < |z| ==> PlainSymbol(z[k].symbol)
    ensures ParseLines(LabelLines(z)) == Some(z)
    decreases |z|
  {
    if z != [] {
      LabelLineRoundTrip(z[0]);
      ParseLinesRoundTrip(z[1..]);
      LabelLinesTail(z);
    }
  }

  lemma LabelLinesTail(z: seq<TickTriple>)
    requires z != []
    ensures LabelLines(z)[0] == LabelLine(z[0]) && LabelLines(z)[1..] == LabelLines(z[1..])
    ensures [z[0]] + z[1..] == z
  {
    assert LabelLines(z)[1..] == LabelLines(z[1..]);
  }

  /**
   * Serialisation is lossless: one line per triple, and reading the text
   * back gives the triples, in order, with their symbols and times.
   */
  lemma SerializeRoundTrip(z: seq<TickTriple>)
    requires forall k :: 0 <= k < |z| ==> PlainSymbol(z[k].symbol)
    ensures z == [] <==> Serialize(z) == ""
    ensures z != [] ==> |Split(Serialize(z), "\n")| == |z|
    ensures ParseLabels(Serialize(z)) == Some(z)
  {
    var lines := LabelLines(z);
    forall k | 0 <= k < |z| ensures '\n' !in lines[k] {
      LabelLineRoundTrip(z[k]);
    }
    ParseLinesRoundTrip(z);
    if z != [] {
      SplitJoin(lines, '\n');
      assert |lines[0]| > 0 by { IntToStringRoundTrip(z[0].start); }
      NonEmptyJoin(lines, "\n");
    }
  }

  lemma {:induction false} NonEmptyJoin(xs: seq<string>, sep: string)
    requires |xs| > 0 && xs[0] != ""
    ensures Join(xs, sep) != ""
  {
  }

  // ---------------------------------------------------------------------
  // align_domino

  /** The phoneme string handed to the aligner. */
  function AlignerInput(text: string, cleanup: bool): string {
    if cleanup then Cleaned(text) else text
  }

  /**
   * `align_domino`: cleans the text when asked, calls the aligner once, and
   * renders its triples in ticks; an aligner failure is passed on.
   */
  method Align(text: string, cleanup: bool, align: string -> Result<seq<SecondsTriple>, string>)
    returns (r: Result<string, string>)
    ensures match align(AlignerInput(text, cleanup))
      case Failure(e) => r == Failure(e)
      case Success(z) => r == Success(Serialize(ToTicks(z)))
  {
    var p: string;
    if cleanup {
      p := PreCleanup(text);
    } else {
      p := text;
    }
    var z := align(p);
    match z
    case Failure(e) =>
      r := Failure(e);
    case Success(triples) =>
      r := Success(Serialize(ToTicks(triples)));
  }
}
