/**
 * The last step of `edit_config.py`: pointing `args_work_dir` in
 * `utils/hparams.py` at the save directory with the regular-expression
 * substitution `re.sub(r"args_work_dir\s*=\s*.*", ...)` over the whole file
 * text. The matcher is written for any key of the same shape as
 * `args_work_dir` (no leading whitespace, no newline), so that the proofs
 * do not depend on the key's letters.
 */
module HparamsWorkDir {
  import opened Wrappers
  import opened Strings

  const WorkDirKey := "args_work_dir"

  /** A key no whitespace run can start and no line break can split. */
  predicate PlainKey(key: string) {
    key != [] && !IsSpace(key[0]) && '\n' !in key
  }

  lemma WorkDirKeyIsPlain()
    ensures PlainKey(WorkDirKey)
  {
    assert WorkDirKey[0] == 'a';
  }

  /** Where the whitespace run starting at `i` ends: what a greedy `\s*` matches from `i`. */
  function SpaceEnd(s: string, i: nat): (j: nat)
    requires i <= |s|
    ensures i <= j <= |s| && (forall k :: i <= k < j ==> IsSpace(s[k])) && (j < |s| ==> !IsSpace(s[j]))
    decreases |s| - i
  {
    if i == |s| || !IsSpace(s[i]) then i else SpaceEnd(s, i + 1)
  }

  /** Where the line containing `i` ends: what `.*` matches from `i`, which stops at a newline. */
  function LineEnd(s: string, i: nat): (j: nat)
    requires i <= |s|
    ensures i <= j <= |s| && (forall k :: i <= k < j ==> s[k] != '\n') && (j < |s| ==> s[j] == '\n')
    decreases |s| - i
  {
    if i == |s| || s[i] == '\n' then i else LineEnd(s, i + 1)
  }

  /** A whitespace run is determined by where it starts. */
  lemma SpaceEndAt(s: string, i: nat, j: nat)
    requires i <= j <= |s| && (forall k :: i <= k < j ==> IsSpace(s[k])) && (j < |s| ==> !IsSpace(s[j]))
    ensures SpaceEnd(s, i) == j
  {
  }

  /** The rest of a line is determined by where it starts. */
  lemma LineEndAt(s: string, i: nat, j: nat)
    requires i <= j <= |s| && (forall k :: i <= k < j ==> s[k] != '\n') && (j < |s| ==> s[j] == '\n')
    ensures LineEnd(s, i) == j
  {
  }

  /**
   * The length of the match of `key\s*=\s*.*` at the start of `s`, if there
   * is one. The greedy match is the only one: the first `\s*` must stop at
   * the `=`, and `.*` also matches the empty string.
   */
  function AssignmentMatch(key: string, s: string): (r: Option<nat>)
    ensures r.Some? ==> |key| < r.value <= |s| && IsPrefix(key, s)
  {
    if !IsPrefix(key, s) then None
    else
      var a := SpaceEnd(s, |key|);
      if a < |s| && s[a] == '=' then Some(LineEnd(s, SpaceEnd(s, a + 1))) else None
  }

  /** `re.sub(key + r"\s*=\s*.*", repl, text)`: the matches, found left to right, become `repl`. */
  function SubAssignment(key: string, text: string, repl: string): string
    decreases |text|
  {
    if text == [] then []
    else match AssignmentMatch(key, text)
      case Some(n) => repl + SubAssignment(key, text[n..], repl)
      case None => [text[0]] + SubAssignment(key, text[1..], repl)
  }

  /** The substitution `edit_config.py` performs on the text of `utils/hparams.py`. */
  function SubWorkDir(text: string, saveDir: string): string {
    SubAssignment(WorkDirKey, text, WorkDirAssignment(saveDir))
  }

  /** The replacement, `args_work_dir = '{save_dir}'`. */
  function WorkDirAssignment(saveDir: string): string {
    WorkDirKey + " = '" + saveDir + "'"
  }

  /** A text that never mentions the key is left as it is. */
  lemma {:induction false} SubAbsent(key: string, text: string, repl: string)
    requires !Contains(text, key)
    ensures SubAssignment(key, text, repl) == text
    decreases |text|
  {
    if text != [] {
      SubAbsent(key, text[1..], repl);
      assert text == [text[0]] + text[1..];
    }
  }

  /** No match starts at a line that does not mention the key. */
  lemma NoMatchAtPlainLine(key: string, line: string, rest: string)
    requires PlainKey(key) && !Contains(line + "\n", key)
    ensures !IsPrefix(key, line + "\n" + rest)
  {
    var s := line + "\n" + rest;
    if |key| <= |line| + 1 {
      assert s[..|key|] == (line + "\n")[..|key|];
    } else {
      assert s[|line|] == '\n';
      assert key[|line|] in key;
    }
  }

  /** Where no match starts, the first character is kept and the substitution goes on after it. */
  lemma SubNoMatchHead(key: string, s: string, repl: string)
    requires s != [] && !IsPrefix(key, s)
    ensures SubAssignment(key, s, repl) == [s[0]] + SubAssignment(key, s[1..], repl)
  {
  }

  /** Putting the first character back in front of the rest. */
  lemma HeadTail(u: string, t: string)
    requires u != []
    ensures [u[0]] + (u[1..] + t) == u + t
  {
    assert u == [u[0]] + u[1..];
  }

  /** A line that does not mention the key is kept, and the substitution goes on after it. */
  lemma {:induction false} SubPlainLine(key: string, line: string, rest: string, repl: string)
    requires PlainKey(key) && !Contains(line + "\n", key)
    ensures SubAssignment(key, line + "\n" + rest, repl) == line + "\n" + SubAssignment(key, rest, repl)
    decreases |line|
  {
    var u := line + "\n";
    NoMatchAtPlainLine(key, line, rest);
    SubNoMatchHead(key, u + rest, repl);
    assert (u + rest)[1..] == u[1..] + rest;
    if line == [] {
      assert u[1..] == [];
    } else {
      assert u[1..] == line[1..] + "\n";
      SubPlainLine(key, line[1..], rest, repl);
      HeadTail(u, SubAssignment(key, rest, repl));
    }
  }

  /** Leading whitespace is kept: no match starts inside it. */
  lemma {:induction false} SubIndent(key: string, indent: string, text: string, repl: string)
    requires PlainKey(key) && Blank(indent)
    ensures SubAssignment(key, indent + text, repl) == indent + SubAssignment(key, text, repl)
    decreases |indent|
  {
    if indent != [] {
      var s := indent + text;
      assert s[0] == indent[0];
      assert !IsPrefix(key, s) by {
        assert s[0] != key[0];
      }
      SubNoMatchHead(key, s, repl);
      assert s[1..] == indent[1..] + text;
      SubIndent(key, indent[1..], text, repl);
      HeadTail(indent, SubAssignment(key, text, repl));
    } else {
      assert indent + text == text;
    }
  }

  /** An assignment to `key`, spaced by `gap1` and `gap2`. */
  function AssignmentText(key: string, gap1: string, gap2: string, value: string): string {
    key + gap1 + "=" + gap2 + value
  }

  /** A blank run followed by a non-space is skipped whole by `\s*`. */
  lemma SpaceEndOver(pre: string, gap: string, tail: string)
    requires Blank(gap) && (tail == [] || !IsSpace(tail[0]))
    ensures SpaceEnd(pre + gap + tail, |pre|) == |pre| + |gap|
  {
    var s := pre + gap + tail;
    assert forall k :: |pre| <= k < |pre| + |gap| ==> s[k] == gap[k - |pre|];
    SpaceEndAt(s, |pre|, |pre| + |gap|);
  }

  /** A newline-free run followed by a newline or the end is matched whole by `.*`. */
  lemma LineEndOver(pre: string, value: string, tail: string)
    requires '\n' !in value && (tail == [] || tail[0] == '\n')
    ensures LineEnd(pre + value + tail, |pre|) == |pre| + |value|
  {
    var s := pre + value + tail;
    assert forall k :: |pre| <= k < |pre| + |value| ==> s[k] == value[k - |pre|] && value[k - |pre|] in value;
    LineEndAt(s, |pre|, |pre| + |value|);
  }

  /** In an assignment, the key is followed by `gap1` and then the `=`. */
  lemma KeyThenEquals(key: string, gap1: string, gap2: string, value: string, rest: string)
    requires Blank(gap1)
    ensures var s := AssignmentText(key, gap1, gap2, value) + rest;
      IsPrefix(key, s) && SpaceEnd(s, |key|) == |key| + |gap1| < |s| && s[|key| + |gap1|] == '='
  {
    var s := AssignmentText(key, gap1, gap2, value) + rest;
    assert s == key + gap1 + ("=" + gap2 + value + rest);
    SpaceEndOver(key, gap1, "=" + gap2 + value + rest);
  }

  /** In an assignment, the `=` is followed by `gap2` and then the value. */
  lemma EqualsThenValue(key: string, gap1: string, gap2: string, value: string, rest: string)
    requires Blank(gap2) && value != [] && !IsSpace(value[0])
    ensures var s := AssignmentText(key, gap1, gap2, value) + rest;
      SpaceEnd(s, |key| + |gap1| + 1) == |key| + |gap1| + 1 + |gap2|
  {
    var head := key + gap1 + "=";
    assert AssignmentText(key, gap1, gap2, value) + rest == head + gap2 + (value + rest);
    SpaceEndOver(head, gap2, value + rest);
  }

  /** In an assignment, the value runs to the end of its line. */
  lemma ValueToLineEnd(key: string, gap1: string, gap2: string, value: string, rest: string)
    requires '\n' !in value && (rest == [] || rest[0] == '\n')
    ensures var s := AssignmentText(key, gap1, gap2, value) + rest;
      LineEnd(s, |key| + |gap1| + 1 + |gap2|) == |AssignmentText(key, gap1, gap2, value)|
  {
    LineEndOver(key + gap1 + "=" + gap2, value, rest);
  }

  /** The match at an assignment `key gap1 = gap2 value` ends where the value does. */
  lemma MatchAtAssignment(key: string, gap1: string, gap2: string, value: string, rest: string)
    requires Blank(gap1) && Blank(gap2)
    requires value != [] && !IsSpace(value[0]) && '\n' !in value
    requires rest == [] || rest[0] == '\n'
    ensures AssignmentMatch(key, AssignmentText(key, gap1, gap2, value) + rest)
         == Some(|AssignmentText(key, gap1, gap2, value)|)
  {
    KeyThenEquals(key, gap1, gap2, value, rest);
    EqualsThenValue(key, gap1, gap2, value, rest);
    ValueToLineEnd(key, gap1, gap2, value, rest);
  }

  /**
   * An assignment line, `key = value` however spaced and indented, becomes
   * the indentation followed by the replacement; the newline that ends it
   * is kept.
   */
  lemma SubAssignmentLine(key: string, indent: string, gap1: string, gap2: string, value: string, rest: string,
                          repl: string)
    requires PlainKey(key) && Blank(indent) && Blank(gap1) && Blank(gap2)
    requires value != [] && !IsSpace(value[0]) && '\n' !in value
    requires rest == [] || rest[0] == '\n'
    ensures SubAssignment(key, indent + (AssignmentText(key, gap1, gap2, value) + rest), repl)
         == indent + (repl + SubAssignment(key, rest, repl))
  {
    var x := AssignmentText(key, gap1, gap2, value);
    SubIndent(key, indent, x + rest, repl);
    MatchAtAssignment(key, gap1, gap2, value, rest);
    assert (x + rest)[|x|..] == rest;
  }

  /** A line of `hparams.py`, as far as the substitution is concerned. */
  datatype HparamsLine =
    | Other(text: string)
    | Assignment(indent: string, gap1: string, gap2: string, value: string)

  predicate WellFormedLine(key: string, l: HparamsLine) {
    match l
    case Other(t) => !Contains(t + "\n", key)
    case Assignment(indent, gap1, gap2, value) =>
      Blank(indent) && Blank(gap1) && Blank(gap2) && value != [] && !IsSpace(value[0]) && '\n' !in value
  }

  function Render(key: string, l: HparamsLine): string {
    match l
    case Other(t) => t
    case Assignment(indent, gap1, gap2, value) => indent + AssignmentText(key, gap1, gap2, value)
  }

  /** The file text: every line followed by a newline. */
  function RenderAll(key: string, ls: seq<HparamsLine>): string
    decreases |ls|
  {
    if ls == [] then [] else Render(key, ls[0]) + "\n" + RenderAll(key, ls[1..])
  }

  /** What becomes of a line: an assignment turns into the indentation followed by `repl`. */
  function Substituted(l: HparamsLine, repl: string): string {
    match l
    case Other(t) => t
    case Assignment(indent, _, _, _) => indent + repl
  }

  function SubstitutedAll(ls: seq<HparamsLine>, repl: string): string
    decreases |ls|
  {
    if ls == [] then [] else Substituted(ls[0], repl) + "\n" + SubstitutedAll(ls[1..], repl)
  }

  /**
   * On a text of well-formed lines the substitution replaces exactly the
   * assignments to the key, keeping their indentation, and keeps every
   * other line.
   */
  lemma {:induction false} SubLines(key: string, ls: seq<HparamsLine>, repl: string)
    requires PlainKey(key)
    requires forall i :: 0 <= i < |ls| ==> WellFormedLine(key, ls[i])
    ensures SubAssignment(key, RenderAll(key, ls), repl) == SubstitutedAll(ls, repl)
    decreases |ls|
  {
    if ls != [] {
      SubLines(key, ls[1..], repl);
      SubFirstLine(key, ls[0], RenderAll(key, ls[1..]), repl);
    }
  }

  /** A well-formed line followed by a newline becomes its substituted form, and the substitution goes on after it. */
  lemma SubFirstLine(key: string, l: HparamsLine, rest: string, repl: string)
    requires PlainKey(key) && WellFormedLine(key, l)
    ensures SubAssignment(key, Render(key, l) + "\n" + rest, repl)
         == Substituted(l, repl) + "\n" + SubAssignment(key, rest, repl)
  {
    match l
    case Other(t) =>
      SubPlainLine(key, t, rest, repl);
    case Assignment(indent, gap1, gap2, value) =>
      var x := AssignmentText(key, gap1, gap2, value);
      SubAssignmentLine(key, indent, gap1, gap2, value, "\n" + rest, repl);
      Associative(indent + x, "\n", rest);
      Associative(indent, x, "\n" + rest);
      SubPlainLine(key, [], rest, repl);
      assert [] + "\n" + rest == "\n" + rest;
      var y := SubAssignment(key, rest, repl);
      Associative(indent, repl, "\n" + y);
      Associative(indent + repl, "\n", y);
  }

  /**
   * The whitespace after `=` may cross a line break: when the value is
   * missing, the next line is taken as the value and disappears with the
   * assignment.
   */
  lemma SubTakesNextLineWhenValueMissing(key: string, indent: string, next: string, rest: string, repl: string)
    requires PlainKey(key) && Blank(indent)
    requires next != [] && !IsSpace(next[0]) && '\n' !in next
    requires rest == [] || rest[0] == '\n'
    ensures SubAssignment(key, indent + (key + "=\n" + next + rest), repl)
         == indent + (repl + SubAssignment(key, rest, repl))
  {
    assert Blank("\n");
    SubAssignmentLine(key, indent, [], "\n", next, rest, repl);
    NoGapAssignment(key, next, rest);
  }

  lemma NoGapAssignment(key: string, next: string, rest: string)
    ensures AssignmentText(key, [], "\n", next) + rest == key + "=\n" + next + rest
  {
    assert key + [] == key;
  }

  /** Pointing every work-directory line of `hparams.py` at the save directory. */
  lemma SubWorkDirLines(ls: seq<HparamsLine>, saveDir: string)
    requires forall i :: 0 <= i < |ls| ==> WellFormedLine(WorkDirKey, ls[i])
    ensures SubWorkDir(RenderAll(WorkDirKey, ls), saveDir) == SubstitutedAll(ls, WorkDirAssignment(saveDir))
  {
    WorkDirKeyIsPlain();
    SubLines(WorkDirKey, ls, WorkDirAssignment(saveDir));
  }

  /** A line after the substitution, seen again as a line of `hparams.py`. */
  function Rewrite(l: HparamsLine, saveDir: string): HparamsLine {
    match l
    case Other(_) => l
    case Assignment(indent, _, _, _) => Assignment(indent, " ", " ", "'" + saveDir + "'")
  }

  function RewriteAll(ls: seq<HparamsLine>, saveDir: string): (r: seq<HparamsLine>)
    ensures |r| == |ls| && forall i :: 0 <= i < |ls| ==> r[i] == Rewrite(ls[i], saveDir)
  {
    seq(|ls|, i requires 0 <= i < |ls| => Rewrite(ls[i], saveDir))
  }

  lemma {:induction false} SubstitutedAllRewrites(ls: seq<HparamsLine>, saveDir: string)
    ensures SubstitutedAll(ls, WorkDirAssignment(saveDir)) == RenderAll(WorkDirKey, RewriteAll(ls, saveDir))
    decreases |ls|
  {
    if ls != [] {
      SubstitutedAllRewrites(ls[1..], saveDir);
      assert RewriteAll(ls, saveDir)[1..] == RewriteAll(ls[1..], saveDir);
      RenderRewrite(ls[0], saveDir);
    }
  }

  /** A rewritten line renders as the substitution's output for that line. */
  lemma RenderRewrite(l: HparamsLine, saveDir: string)
    ensures Render(WorkDirKey, Rewrite(l, saveDir)) == Substituted(l, WorkDirAssignment(saveDir))
  {
    if l.Assignment? {
      assert WorkDirKey + " " + "=" + " " + ("'" + saveDir + "'") == WorkDirAssignment(saveDir);
    }
  }

  /** A rewritten line is well formed again and rewrites to itself. */
  lemma RewriteStable(l: HparamsLine, saveDir: string)
    requires WellFormedLine(WorkDirKey, l) && '\n' !in saveDir
    ensures WellFormedLine(WorkDirKey, Rewrite(l, saveDir)) && Rewrite(Rewrite(l, saveDir), saveDir) == Rewrite(l, saveDir)
  {
    if l.Assignment? {
      var v := "'" + saveDir + "'";
      assert v[0] == '\'';
      assert forall j :: 0 <= j < |v| ==> v[j] == '\'' || v[j] in saveDir;
      assert Blank(" ");
    }
  }

  /**
   * Running the script a second time with the same save directory changes
   * nothing more, as long as the save directory holds no newline.
   */
  lemma SubWorkDirIdempotent(ls: seq<HparamsLine>, saveDir: string)
    requires forall i :: 0 <= i < |ls| ==> WellFormedLine(WorkDirKey, ls[i])
    requires '\n' !in saveDir
    ensures var once := SubWorkDir(RenderAll(WorkDirKey, ls), saveDir);
      SubWorkDir(once, saveDir) == once
  {
    var ls1 := RewriteAll(ls, saveDir);
    SubWorkDirLines(ls, saveDir);
    SubstitutedAllRewrites(ls, saveDir);
    forall i | 0 <= i < |ls1|
      ensures WellFormedLine(WorkDirKey, ls1[i]) && Rewrite(ls1[i], saveDir) == ls1[i]
    {
      RewriteStable(ls[i], saveDir);
    }
    SubWorkDirLines(ls1, saveDir);
    SubstitutedAllRewrites(ls1, saveDir);
    assert RewriteAll(ls1, saveDir) == ls1;
  }
}
