/**
 * The string and list logic of `export_onnx.py`:
 *  - `update_hparams`, which rewrites the work-directory line of
 *    `utils/hparams.py` in two first-match passes over its lines, writing
 *    the file and reading its lines again between them;
 *  - `export_model`, as the plan it carries out: the output path, the
 *    converter command, the dictionary copy and stash;
 *  - the two renaming passes of `rename_files`;
 *  - the pieces of `make_ou_compatible` that build values: dictionary
 *    entries, the vowel/stop symbol table, the sub-bank list and the name of
 *    the final voice-bank folder.
 * Running commands and moving files are left to the caller; the model keeps
 * what is decided and computed before those calls.
 */
module ExportOnnx {
  import opened Wrappers
  import opened Strings
  import opened Paths
  import opened Numerals

  // ---------------------------------------------------------------------
  // update_hparams

  /** The text that marks the work-directory line in its original form. */
  const WorkDirJoin := "        args_work_dir = os.path.join("
  /** The text that marks the work-directory line once it has been rewritten. */
  const WorkDirQuoted := "        args_work_dir = '"

  /** The line `update_hparams` writes for `folderPath`, without its newline. */
  function WorkDirLine(folderPath: string): string {
    WorkDirQuoted + folderPath + "'"
  }

  /** The index of the first line in which `search` occurs, if any. */
  function FirstContaining(lines: seq<string>, search: string): (r: Option<nat>)
    ensures r.None? <==> forall j :: 0 <= j < |lines| ==> !Contains(lines[j], search)
    ensures r.Some? ==> r.value < |lines| && Contains(lines[r.value], search)
    ensures r.Some? ==> forall j :: 0 <= j < r.value ==> !Contains(lines[j], search)
    decreases |lines|
  {
    if lines == [] then None
    else if Contains(lines[0], search) then Some(0)
    else
      match FirstContaining(lines[1..], search)
      case None => None
      case Some(k) => Some(k + 1)
  }

  /**
   * One pass of `update_hparams`: the first line holding `search` becomes
   * `replacement` plus a newline; every other line, and the number of lines,
   * stay as they were.
   */
  function ReplacedFirst(lines: seq<string>, search: string, replacement: string): (r: seq<string>)
    ensures |r| == |lines|
    ensures forall j :: 0 <= j < |lines| && FirstContaining(lines, search) != Some(j) ==> r[j] == lines[j]
    ensures FirstContaining(lines, search).Some? ==> r[FirstContaining(lines, search).value] == replacement + "\n"
    ensures FirstContaining(lines, search).None? ==> r == lines
  {
    match FirstContaining(lines, search)
    case None => lines
    case Some(k) => lines[k := replacement + "\n"]
  }

  /** The enumerate-and-break loop of one `update_hparams` pass. */
  method ReplaceFirstContaining(lines: seq<string>, search: string, replacement: string) returns (result: seq<string>)
    ensures result == ReplacedFirst(lines, search, replacement)
  {
    result := lines;
    for i := 0 to |lines|
      invariant result == lines
      invariant forall j :: 0 <= j < i ==> !Contains(lines[j], search)
    {
      if Contains(lines[i], search) {
        result := lines[i := replacement + "\n"];
        return;
      }
    }
  }

  /**
   * The two passes on a list of lines, as they act when the file reads back
   * between them exactly as the first pass wrote it.
   */
  function PassesOnLines(lines: seq<string>, folderPath: string): (r: seq<string>)
    ensures |r| == |lines|
    ensures forall j :: 0 <= j < |lines| ==> r[j] == lines[j] || r[j] == WorkDirLine(folderPath) + "\n"
  {
    var line := WorkDirLine(folderPath);
    ReplacedFirst(ReplacedFirst(lines, WorkDirJoin, line), WorkDirQuoted, line)
  }

  /** The text holds neither kind of line break that reading recognises. */
  predicate NoLineBreak(s: string) {
    '\n' !in s && '\r' !in s
  }

  /** A pass keeps lines in the shape `readlines` yields when the folder path holds no line break. */
  lemma PassKeepsShape(lines: seq<string>, search: string, folderPath: string)
    requires LinesShape(lines) && NoLineBreak(folderPath)
    ensures LinesShape(ReplacedFirst(lines, search, WorkDirLine(folderPath)))
  {
    var l := WorkDirLine(folderPath) + "\n";
    assert l[..|l| - 1] == WorkDirQuoted + folderPath + "'";
    assert LineShape(l) && EndsLine(l);
  }

  /**
   * With a folder path free of line breaks, the file written after the first
   * pass reads back as the lines that were written.
   */
  lemma PassesReadBack(lines: seq<string>, folderPath: string)
    requires LinesShape(lines) && NoLineBreak(folderPath)
    ensures ReadLines(Concat(ReplacedFirst(lines, WorkDirJoin, WorkDirLine(folderPath))))
         == ReplacedFirst(lines, WorkDirJoin, WorkDirLine(folderPath))
    ensures ReadLines(Concat(PassesOnLines(lines, folderPath))) == PassesOnLines(lines, folderPath)
  {
    var once := ReplacedFirst(lines, WorkDirJoin, WorkDirLine(folderPath));
    PassKeepsShape(lines, WorkDirJoin, folderPath);
    ReadLinesConcat(once);
    PassKeepsShape(once, WorkDirQuoted, folderPath);
    ReadLinesConcat(PassesOnLines(lines, folderPath));
  }

  /**
   * `update_hparams(folderPath)` on a file holding `text`: read its lines,
   * rewrite the first original-form line, write the lines back, read them
   * again, rewrite the first rewritten-form line and write them back. When
   * the folder path holds no line break, the re-read returns what was
   * written, and the new file is the two passes over the file's lines.
   */
  function HparamsUpdated(text: string, folderPath: string): (r: string)
    ensures NoLineBreak(folderPath) ==> r == Concat(PassesOnLines(ReadLines(text), folderPath))
    ensures NoLineBreak(folderPath) ==> ReadLines(r) == PassesOnLines(ReadLines(text), folderPath)
  {
    var line := WorkDirLine(folderPath);
    var written := Concat(ReplacedFirst(ReadLines(text), WorkDirJoin, line));
    var result := Concat(ReplacedFirst(ReadLines(written), WorkDirQuoted, line));
    if NoLineBreak(folderPath) then
      ReadLinesShape(text);
      PassesReadBack(ReadLines(text), folderPath);
      result
    else result
  }

  /** `update_hparams`: read, the original-form pass, write, read again, the rewritten-form pass, write. */
  method UpdateHparams(text: string, folderPath: string) returns (result: string)
    ensures result == HparamsUpdated(text, folderPath)
  {
    var line := WorkDirLine(folderPath);
    var once := ReplaceFirstContaining(ReadLines(text), WorkDirJoin, line);
    var written := Concat(once);
    var twice := ReplaceFirstContaining(ReadLines(written), WorkDirQuoted, line);
    result := Concat(twice);
  }

  /** The written line carries the marker the second pass looks for. */
  lemma WorkDirLineIsQuoted(folderPath: string)
    ensures Contains(WorkDirLine(folderPath) + "\n", WorkDirQuoted)
  {
    ContainsMiddle([], WorkDirQuoted, folderPath + "'" + "\n");
    assert [] + WorkDirQuoted + (folderPath + "'" + "\n") == WorkDirLine(folderPath) + "\n";
  }

  /** If either form of the work-directory line is present, the two passes leave the new line. */
  lemma PassesSetWorkDir(lines: seq<string>, folderPath: string, j: nat)
    requires j < |lines| && (Contains(lines[j], WorkDirJoin) || Contains(lines[j], WorkDirQuoted))
    ensures WorkDirLine(folderPath) + "\n" in PassesOnLines(lines, folderPath)
  {
    var line := WorkDirLine(folderPath);
    var once := ReplacedFirst(lines, WorkDirJoin, line);
    WorkDirLineIsQuoted(folderPath);
    match FirstContaining(lines, WorkDirJoin)
    case Some(k) =>
      assert Contains(once[k], WorkDirQuoted);
    case None =>
      assert once[j] == lines[j];
    var m := FirstContaining(once, WorkDirQuoted).value;
    assert ReplacedFirst(once, WorkDirQuoted, line)[m] == line + "\n";
  }

  /**
   * When no line before the first original-form line is already in the
   * rewritten form, the second pass rewrites that same line again, so the
   * two passes together change exactly one line.
   */
  lemma PassesSingleEdit(lines: seq<string>, folderPath: string, k: nat)
    requires FirstContaining(lines, WorkDirJoin) == Some(k)
    requires forall j :: 0 <= j < k ==> !Contains(lines[j], WorkDirQuoted)
    ensures PassesOnLines(lines, folderPath) == lines[k := WorkDirLine(folderPath) + "\n"]
  {
    var line := WorkDirLine(folderPath);
    var once := ReplacedFirst(lines, WorkDirJoin, line);
    WorkDirLineIsQuoted(folderPath);
    assert once == lines[k := line + "\n"];
    assert forall j :: 0 <= j < k ==> once[j] == lines[j];
    assert FirstContaining(once, WorkDirQuoted) == Some(k);
  }

  /** If the file has either form of the work-directory line, the updated file has the new line. */
  lemma UpdateHparamsSetsWorkDir(text: string, folderPath: string, j: nat)
    requires NoLineBreak(folderPath)
    requires j < |ReadLines(text)|
    requires Contains(ReadLines(text)[j], WorkDirJoin) || Contains(ReadLines(text)[j], WorkDirQuoted)
    ensures WorkDirLine(folderPath) + "\n" in ReadLines(HparamsUpdated(text, folderPath))
  {
    PassesSetWorkDir(ReadLines(text), folderPath, j);
  }

  /**
   * When no rewritten-form line comes before the first original-form line,
   * the updated file differs from the old one in exactly that line.
   */
  lemma UpdateHparamsSingleEdit(text: string, folderPath: string, k: nat)
    requires NoLineBreak(folderPath)
    requires FirstContaining(ReadLines(text), WorkDirJoin) == Some(k)
    requires forall j :: 0 <= j < k ==> !Contains(ReadLines(text)[j], WorkDirQuoted)
    ensures ReadLines(HparamsUpdated(text, folderPath)) == ReadLines(text)[k := WorkDirLine(folderPath) + "\n"]
  {
    PassesSingleEdit(ReadLines(text), folderPath, k);
  }

  /** A line free of line breaks, written with its newline, reads back as one line. */
  lemma PlainLineReadsBack(l: string)
    requires NoLineBreak(l)
    ensures ReadLines(l + "\n") == [l + "\n"]
  {
    var text := l + "\n";
    assert text[..|text| - 1] == l;
    UniversalNewlinesPlain(text);
    SplitAfterLine(text, []);
    assert text + [] == text;
  }

  /** The original-form line alone reads back as one line. */
  lemma WorkDirJoinReadsBack()
    ensures ReadLines(WorkDirJoin + "\n") == [WorkDirJoin + "\n"]
  {
    assert NoLineBreak(WorkDirJoin);
    PlainLineReadsBack(WorkDirJoin);
  }

  /** A written work-directory line whose path is `a`, a newline and `b` reads back as two lines. */
  lemma WorkDirLineSplits(a: string, b: string)
    requires NoLineBreak(a) && NoLineBreak(b)
    ensures ReadLines(WorkDirLine(a + "\n" + b) + "\n") == [WorkDirQuoted + a + "\n", b + "'\n"]
  {
    var first := WorkDirQuoted + a + "\n";
    var second := b + "'\n";
    assert WorkDirLine(a + "\n" + b) + "\n" == first + second;
    assert first[..|first| - 1] == WorkDirQuoted + a;
    assert second[..|second| - 1] == b + "'";
    assert '\r' !in first + second;
    UniversalNewlinesPlain(first + second);
    SplitAfterLine(first, second);
    SplitAfterLine(second, []);
    assert second + [] == second;
  }

  /**
   * A folder path holding a line break, `a` then `b`, is split by the
   * re-read: the second pass rewrites only the piece that holds `a`, and the
   * piece that holds `b` is left behind as an extra line, where a file that
   * read back as written would end with the work-directory line.
   */
  lemma FolderLineBreakAddsLine(a: string, b: string)
    requires NoLineBreak(a) && NoLineBreak(b)
    ensures Concat(PassesOnLines(ReadLines(WorkDirJoin + "\n"), a + "\n" + b))
         == WorkDirLine(a + "\n" + b) + "\n"
    ensures HparamsUpdated(WorkDirJoin + "\n", a + "\n" + b)
         == WorkDirLine(a + "\n" + b) + "\n" + b + "'\n"
  {
    var text := WorkDirJoin + "\n";
    var line := WorkDirLine(a + "\n" + b);
    WorkDirJoinReadsBack();
    ContainsMiddle([], WorkDirJoin, "\n");
    assert [] + WorkDirJoin + "\n" == text;
    assert ReplacedFirst([text], WorkDirJoin, line) == [line + "\n"];
    WorkDirLineIsQuoted(a + "\n" + b);
    assert PassesOnLines([text], a + "\n" + b) == [line + "\n"];
    var piece := WorkDirQuoted + a + "\n";
    WorkDirLineSplits(a, b);
    ContainsMiddle([], WorkDirQuoted, a + "\n");
    assert [] + WorkDirQuoted + (a + "\n") == piece;
    assert ReplacedFirst([piece, b + "'\n"], WorkDirQuoted, line) == [line + "\n", b + "'\n"];
    ConcatCons(line + "\n", [b + "'\n"]);
  }

  // ---------------------------------------------------------------------
  // export_model

  /** What `export_model` does for one model, or that it does nothing. */
  datatype ExportPlan =
    | NotExported
    | Exported(folderName: string, workDir: Option<string>, copiesDictionary: bool,
               stashesCustomDict: bool, command: string, outputPath: string)

  /** What quiet mode appends to the converter command. */
  const QuietSuffix := " >/dev/null 2>&1"
  const ExportScript := "python scripts/export.py "

  /** The folder the exported model is written to, `{expFolder}/onnx/{modelType}`. */
  function OutputPath(expFolder: string, modelType: string): (p: string)
    ensures IsSuffix(modelType, p)
    ensures '/' !in modelType ==> Basename(p) == modelType
  {
    var p := expFolder + "/onnx/" + modelType;
    if '/' !in modelType then LastComponent(p, modelType); p else p
  }

  /** `command` followed by the quiet suffix when `noOutput` holds. */
  function Silenced(command: string, noOutput: bool): (c: string)
    ensures IsPrefix(command, c)
    ensures noOutput ==> IsSuffix(QuietSuffix, c)
  {
    if noOutput then command + QuietSuffix else command
  }

  /** A silenced command still contains every piece it was built from. */
  lemma SilencedContains(a: string, p: string, b: string, noOutput: bool)
    ensures Contains(Silenced(a + p + b, noOutput), p)
  {
    var s := if noOutput then b + QuietSuffix else b;
    assert Silenced(a + p + b, noOutput) == a + p + s;
    ContainsMiddle(a, p, s);
  }

  /** A command built as `pre`, the `--exp` argument and the `--out` argument starts with `pre` and holds both. */
  lemma CommandPieces(pre: string, exp: string, out: string, noOutput: bool)
    ensures IsPrefix(pre, Silenced(pre + exp + out, noOutput))
    ensures Contains(Silenced(pre + exp + out, noOutput), exp)
    ensures Contains(Silenced(pre + exp + out, noOutput), out)
  {
    SilencedContains(pre, exp, out, noOutput);
    SilencedContains(pre + exp, out, "", noOutput);
    assert pre + exp + out + "" == pre + exp + out;
    assert (pre + exp + out)[..|pre|] == pre;
  }

  /**
   * `export_model` in `export_onnx.py`: an empty checkpoint path exports
   * nothing. Otherwise the hparams work directory becomes the checkpoint's
   * folder, a `dictionary.txt` beside the checkpoint is copied over the custom
   * dictionary (stashing an existing one, which is restored afterwards), and
   * the converter command writes to `{expFolder}/onnx/{modelType}`.
   */
  function ExportModel(modelType: string, checkpointPath: string, expFolder: string, noOutput: bool,
                       conda: string, hasDictionary: bool, hasCustomDict: bool): (r: ExportPlan)
    ensures r.NotExported? <==> checkpointPath == []
    ensures r.Exported? ==> r.outputPath == OutputPath(expFolder, modelType)
    ensures r.Exported? ==> r.workDir == Some(Dirname(checkpointPath))
    ensures r.Exported? ==> Contains(r.command, " --out " + r.outputPath)
    ensures r.Exported? && noOutput ==> IsSuffix(QuietSuffix, r.command)
    ensures r.Exported? ==> r.folderName == Basename(Dirname(checkpointPath)) + "_" + modelType
    ensures r.Exported? ==> Contains(r.command, " --exp " + r.folderName)
    ensures r.Exported? && modelType == "fir-acoustic-vocoder" ==> IsPrefix(ExportScript + modelType, r.command)
    ensures r.Exported? && modelType != "fir-acoustic-vocoder" ==>
              IsPrefix(conda + " run -n diffsinger_onnx " + ExportScript + modelType, r.command)
    ensures r.Exported? ==> (r.stashesCustomDict <==> hasDictionary && hasCustomDict)
    ensures r.Exported? ==> (r.copiesDictionary <==> hasDictionary)
  {
    if checkpointPath == [] then NotExported
    else
      var folderPath := Dirname(checkpointPath);
      var folderName := Basename(folderPath) + "_" + modelType;
      var outputPath := OutputPath(expFolder, modelType);
      var pre := if modelType == "fir-acoustic-vocoder" then ExportScript + modelType
        else conda + " run -n diffsinger_onnx " + ExportScript + modelType;
      var exp := " --exp " + folderName;
      var out := " --out " + outputPath;
      CommandPieces(pre, exp, out, noOutput);
      Exported(folderName, Some(folderPath), hasDictionary, hasDictionary && hasCustomDict,
               Silenced(pre + exp + out, noOutput), outputPath)
  }

  /** Quiet mode changes the command only by appending the redirection. */
  lemma ExportQuietAppends(modelType: string, checkpointPath: string, expFolder: string,
                           conda: string, hasDictionary: bool, hasCustomDict: bool)
    requires checkpointPath != []
    ensures ExportModel(modelType, checkpointPath, expFolder, true, conda, hasDictionary, hasCustomDict).command
         == ExportModel(modelType, checkpointPath, expFolder, false, conda, hasDictionary, hasCustomDict).command + QuietSuffix
  {
  }

  // ---------------------------------------------------------------------
  // rename_files

  /** The rename table of `rename_files`, in the order Python iterates it. */
  const RenamePatterns: seq<(string, string)> := [
    ("acoustic.onnx", "acoustic.onnx"), ("dur.onnx", "dur.onnx"),
    ("linguistic.onnx", "linguistic.onnx"), ("pitch.onnx", "pitch.onnx"),
    ("variance.onnx", "variance.onnx"), ("phonemes.txt", "phonemes.txt")]

  /** The index of the first rule whose pattern occurs in `filename`, if any. */
  function FirstPatternIn(filename: string, rules: seq<(string, string)>): (r: Option<nat>)
    ensures r.None? <==> forall j :: 0 <= j < |rules| ==> !Contains(filename, rules[j].0)
    ensures r.Some? ==> r.value < |rules| && Contains(filename, rules[r.value].0)
    ensures r.Some? ==> forall j :: 0 <= j < r.value ==> !Contains(filename, rules[j].0)
    decreases |rules|
  {
    if rules == [] then None
    else if Contains(filename, rules[0].0) then Some(0)
    else
      match FirstPatternIn(filename, rules[1..])
      case None => None
      case Some(k) => Some(k + 1)
  }

  /**
   * The name a file listed as `filename` has after the first pass has tried
   * `rules` in order, starting from the name `current`: a rule whose pattern
   * occurs in `filename` moves the file to the rule's target, but only while
   * the file is still found under `filename`.
   */
  function FirstPass(filename: string, current: string, rules: seq<(string, string)>): string
    decreases |rules|
  {
    if rules == [] then current
    else
      var next := if Contains(filename, rules[0].0) && current == filename then rules[0].1 else current;
      FirstPass(filename, next, rules[1..])
  }

  /** The first renaming pass for one listed file: the loop over the rename table. */
  method FirstPassName(filename: string) returns (name: string)
    ensures name == FirstPass(filename, filename, RenamePatterns)
  {
    name := filename;
    for k := 0 to |RenamePatterns|
      invariant FirstPass(filename, name, RenamePatterns[k..]) == FirstPass(filename, filename, RenamePatterns)
    {
      var (pattern, newName) := RenamePatterns[k];
      assert RenamePatterns[k..][1..] == RenamePatterns[k + 1..];
      if Contains(filename, pattern) && name == filename {
        name := newName;
      }
    }
  }

  /** Rules whose patterns do not occur leave the name alone. */
  lemma {:induction false} FirstPassNoMatch(filename: string, current: string, rules: seq<(string, string)>)
    requires forall j :: 0 <= j < |rules| ==> !Contains(filename, rules[j].0)
    ensures FirstPass(filename, current, rules) == current
    decreases |rules|
  {
    if rules != [] {
      FirstPassNoMatch(filename, current, rules[1..]);
    }
  }

  /** A file already moved away from its listed name is not moved again. */
  lemma {:induction false} FirstPassMovedStays(filename: string, current: string, rules: seq<(string, string)>)
    requires current != filename
    ensures FirstPass(filename, current, rules) == current
    decreases |rules|
  {
    if rules != [] {
      FirstPassMovedStays(filename, current, rules[1..]);
    }
  }

  /** Leading rules that do not match can be dropped. */
  lemma {:induction false} FirstPassSkip(filename: string, rules: seq<(string, string)>, k: nat)
    requires k <= |rules|
    requires forall j :: 0 <= j < k ==> !Contains(filename, rules[j].0)
    ensures FirstPass(filename, filename, rules) == FirstPass(filename, filename, rules[k..])
    decreases k
  {
    if k > 0 {
      FirstPassSkip(filename, rules[1..], k - 1);
      assert rules[1..][k - 1..] == rules[k..];
    }
  }

  /**
   * For any table: a file no pattern matches keeps its name, and a file
   * whose first matching rule moves it to another name ends under that name,
   * whatever later rules say.
   */
  lemma FirstPassTakesFirstMatch(filename: string, rules: seq<(string, string)>)
    ensures FirstPatternIn(filename, rules).None? ==> FirstPass(filename, filename, rules) == filename
    ensures FirstPatternIn(filename, rules).Some? && rules[FirstPatternIn(filename, rules).value].1 != filename
      ==> FirstPass(filename, filename, rules) == rules[FirstPatternIn(filename, rules).value].1
  {
    match FirstPatternIn(filename, rules)
    case None =>
      FirstPassNoMatch(filename, filename, rules);
    case Some(k) =>
      FirstPassSkip(filename, rules, k);
      assert rules[k..][1..] == rules[k + 1..];
      if rules[k].1 != filename {
        FirstPassMovedStays(filename, rules[k].1, rules[k + 1..]);
      }
  }

  /** No pattern of the rename table occurs inside an earlier one. */
  lemma PatternsNotNested(i: nat, j: nat)
    requires i < j < |RenamePatterns|
    ensures !Contains(RenamePatterns[i].0, RenamePatterns[j].0)
  {
    var p := RenamePatterns[i].0;
    var q := RenamePatterns[j].0;
    if i == 3 && j == 5 {
      assert q[4] == 'e' && 'e' !in p;
      AbsentCharRulesOut(p, q, 4);
    } else {
      assert q[0] !in p;
      AbsentCharRulesOut(p, q, 0);
    }
  }

  /**
   * With the table of `rename_files`, every file ends under the target of the
   * first pattern it contains, or keeps its name when it contains none.
   */
  lemma FirstPassRenamesOnce(filename: string)
    ensures FirstPatternIn(filename, RenamePatterns).None? ==> FirstPass(filename, filename, RenamePatterns) == filename
    ensures FirstPatternIn(filename, RenamePatterns).Some? ==>
      FirstPass(filename, filename, RenamePatterns) == RenamePatterns[FirstPatternIn(filename, RenamePatterns).value].1
  {
    FirstPassTakesFirstMatch(filename, RenamePatterns);
    match FirstPatternIn(filename, RenamePatterns)
    case None =>
    case Some(k) =>
      if RenamePatterns[k].1 == filename {
        SelfRenameKept(filename, k);
      }
  }

  /** Every rule of the rename table keeps the pattern as the new name. */
  lemma RenameTargetsArePatterns()
    ensures forall k :: 0 <= k < |RenamePatterns| ==> RenamePatterns[k].1 == RenamePatterns[k].0
  {
  }

  /** A file already named after the first pattern it contains keeps that name to the end. */
  lemma SelfRenameKept(filename: string, k: nat)
    requires FirstPatternIn(filename, RenamePatterns) == Some(k) && RenamePatterns[k].1 == filename
    ensures FirstPass(filename, filename, RenamePatterns) == filename
  {
    var rules := RenamePatterns;
    RenameTargetsArePatterns();
    assert filename == rules[k].0;
    FirstPassSkip(filename, rules, k);
    assert rules[k..][1..] == rules[k + 1..];
    var rest := rules[k + 1..];
    forall j | 0 <= j < |rest| ensures !Contains(filename, rest[j].0) {
      assert rest[j] == rules[k + 1 + j];
      PatternsNotNested(k, k + 1 + j);
    }
    FirstPassNoMatch(filename, filename, rest);
  }

  /** The separators the second pass removes from `.emb` names, and the doubled prefixes it collapses. */
  const AcousticSep := "_acoustic."
  const VarianceSep := "_variance."
  const AcousticDoubled := "acoustic_acoustic."
  const VarianceDoubled := "variance_variance."

  /** The second pass's rule for `.emb` files: drop everything up to the first separator. */
  function EmbName(filename: string): string {
    if Contains(filename, AcousticSep) then Concat(Split(filename, AcousticSep)[1..])
    else if Contains(filename, VarianceSep) then Concat(Split(filename, VarianceSep)[1..])
    else filename
  }

  /** The second pass's rule for every other file: collapse a doubled model-type prefix. */
  function RenameDoubled(filename: string): string {
    if Contains(filename, AcousticDoubled) then ReplaceAll(filename, AcousticDoubled, "acoustic_")
    else if Contains(filename, VarianceDoubled) then ReplaceAll(filename, VarianceDoubled, "variance_")
    else filename
  }

  /** The second renaming pass of `export_onnx.py` for one listed file. */
  function SecondPassName(filename: string): string {
    if SplitExt(filename).1 == ".emb" then EmbName(filename) else RenameDoubled(filename)
  }

  /** The text after the first `sep`, with every later `sep` deleted. */
  function DropThroughFirst(s: string, sep: string): string
    requires sep != [] && Contains(s, sep)
  {
    var i := Find(s, sep);
    ReplaceAll(s[i + |sep|..], sep, "")
  }

  /** Python's `"".join(s.split(sep)[1:])` drops everything through the first separator. */
  lemma AfterFirstSeparator(s: string, sep: string)
    requires sep != [] && Contains(s, sep)
    ensures Concat(Split(s, sep)[1..]) == DropThroughFirst(s, sep)
  {
    SplitTail(s, sep);
    JoinSplitIsReplace(s[Find(s, sep) + |sep|..], sep, "");
  }

  /**
   * A `.emb` file loses everything up to and including its first
   * `_acoustic.` (failing that, its first `_variance.`), and any later copy of
   * that separator; a file with neither keeps its name.
   */
  lemma EmbNameDropsPrefix(filename: string)
    requires SplitExt(filename).1 == ".emb"
    ensures Contains(filename, AcousticSep) ==> SecondPassName(filename) == DropThroughFirst(filename, AcousticSep)
    ensures !Contains(filename, AcousticSep) && Contains(filename, VarianceSep) ==>
      SecondPassName(filename) == DropThroughFirst(filename, VarianceSep)
    ensures !Contains(filename, AcousticSep) && !Contains(filename, VarianceSep) ==> SecondPassName(filename) == filename
  {
    assert SecondPassName(filename) == EmbName(filename);
    if Contains(filename, AcousticSep) {
      AfterFirstSeparator(filename, AcousticSep);
    } else if Contains(filename, VarianceSep) {
      AfterFirstSeparator(filename, VarianceSep);
    }
  }

  /**
   * A doubled `acoustic_acoustic.` (failing that, `variance_variance.`) loses
   * one copy of its model type, which shortens the name by nine characters per
   * occurrence; a single occurrence is rewritten in place.
   */
  lemma RenameDoubledShape(filename: string)
    ensures |RenameDoubled(filename)| <= |filename|
    ensures Contains(filename, AcousticDoubled) ==> |RenameDoubled(filename)| <= |filename| - 9
    ensures !Contains(filename, AcousticDoubled) && Contains(filename, VarianceDoubled) ==> |RenameDoubled(filename)| <= |filename| - 9
    ensures !Contains(filename, AcousticDoubled) && !Contains(filename, VarianceDoubled) ==> RenameDoubled(filename) == filename
    ensures var i := Find(filename, AcousticDoubled);
      Contains(filename, AcousticDoubled) && !Contains(filename[i + |AcousticDoubled|..], AcousticDoubled) ==>
      RenameDoubled(filename) == filename[..i] + "acoustic_" + filename[i + |AcousticDoubled|..]
  {
    if Contains(filename, AcousticDoubled) {
      ReplaceShortens(filename, AcousticDoubled, "acoustic_");
      var i := Find(filename, AcousticDoubled);
      if !Contains(filename[i + |AcousticDoubled|..], AcousticDoubled) {
        ReplaceSingleOccurrence(filename, AcousticDoubled, "acoustic_");
      }
    } else if Contains(filename, VarianceDoubled) {
      ReplaceShortens(filename, VarianceDoubled, "variance_");
    }
  }

  /**
   * Every occurrence of the doubled prefix is collapsed: the name is cut at
   * each `acoustic_acoustic.` (failing that, each `variance_variance.`) into
   * pieces that hold none, and the pieces are rejoined with the single
   * prefix.
   */
  lemma RenameDoubledEveryOccurrence(filename: string)
    ensures Contains(filename, AcousticDoubled) ==>
      var pieces := Split(filename, AcousticDoubled);
      (forall k :: 0 <= k < |pieces| ==> !Contains(pieces[k], AcousticDoubled))
      && Join(pieces, AcousticDoubled) == filename && RenameDoubled(filename) == Join(pieces, "acoustic_")
    ensures !Contains(filename, AcousticDoubled) && Contains(filename, VarianceDoubled) ==>
      var pieces := Split(filename, VarianceDoubled);
      (forall k :: 0 <= k < |pieces| ==> !Contains(pieces[k], VarianceDoubled))
      && Join(pieces, VarianceDoubled) == filename && RenameDoubled(filename) == Join(pieces, "variance_")
  {
    if Contains(filename, AcousticDoubled) {
      ReplaceBetweenPieces(filename, AcousticDoubled, "acoustic_");
    } else if Contains(filename, VarianceDoubled) {
      ReplaceBetweenPieces(filename, VarianceDoubled, "variance_");
    }
  }

  // ---------------------------------------------------------------------
  // make_ou_compatible: dictionary entries

  /** One `dsdict.yaml` entry: a grapheme and its phonemes. */
  datatype Entry = Entry(grapheme: string, phonemes: seq<string>)

  /**
   * One line of the dictionary file: stripped, cut at its first tab into the
   * grapheme and the rest, the rest split on single spaces. A line without a
   * tab cannot be unpacked into two values and stops the script.
   */
  function ParseDictLine(line: string): (r: Result<Entry, string>)
    ensures r.Success? <==> '\t' in Strip(line)
    ensures r.Success? ==> '\t' !in r.value.grapheme && |r.value.phonemes| >= 1
    ensures r.Success? ==> forall k :: 0 <= k < |r.value.phonemes| ==> ' ' !in r.value.phonemes[k]
    ensures r.Success? ==> r.value.grapheme + "\t" + Join(r.value.phonemes, " ") == Strip(line)
  {
    var s := Strip(line);
    var i := FindChar(s, '\t');
    if i == -1 then Failure("not enough values to unpack (expected 2, got 1)")
    else
      TabCutShape(s, i);
      Success(Entry(s[..i], Split(s[i + 1..], " ")))
  }

  /** Cutting a text at its first tab and splitting the rest on spaces loses nothing. */
  lemma TabCutShape(s: string, i: int)
    requires 0 <= i < |s| && s[i] == '\t' && '\t' !in s[..i]
    ensures |Split(s[i + 1..], " ")| >= 1
    ensures forall p :: p in Split(s[i + 1..], " ") ==> ' ' !in p
    ensures s[..i] + "\t" + Join(Split(s[i + 1..], " "), " ") == s
  {
    var rest := s[i + 1..];
    JoinSplit(rest, " ");
    SplitPiecesFree(rest, ' ');
    assert s == s[..i] + "\t" + rest;
  }

  /** The per-line parse results, in line order. */
  function ParseEach(lines: seq<string>): (rs: seq<Result<Entry, string>>)
    ensures |rs| == |lines|
    ensures forall i :: 0 <= i < |lines| ==> rs[i] == ParseDictLine(lines[i])
    decreases |lines|
  {
    if |lines| == 0 then []
    else ParseEach(lines[..|lines| - 1]) + [ParseDictLine(lines[|lines| - 1])]
  }

  /** Per-line results gathered in order: all the entries, or the error of the first failure. */
  function Collect(rs: seq<Result<Entry, string>>): Result<seq<Entry>, string>
    decreases |rs|
  {
    if |rs| == 0 then Success([])
    else
      match Collect(rs[..|rs| - 1])
      case Failure(e) => Failure(e)
      case Success(es) =>
        match rs[|rs| - 1]
        case Failure(e) => Failure(e)
        case Success(x) => Success(es + [x])
  }

  /** What Collect yields: one entry per result when every result succeeds, else the first failure's error. */
  lemma {:induction false} CollectMeaning(rs: seq<Result<Entry, string>>)
    ensures Collect(rs).Success? <==> forall i :: 0 <= i < |rs| ==> rs[i].Success?
    ensures Collect(rs).Success? ==> |Collect(rs).value| == |rs|
    ensures Collect(rs).Success? ==> forall i :: 0 <= i < |rs| ==> rs[i] == Success(Collect(rs).value[i])
    ensures Collect(rs).Failure? ==>
      exists k :: 0 <= k < |rs| && rs[k] == Failure(Collect(rs).error) &&
        forall j :: 0 <= j < k ==> rs[j].Success?
    decreases |rs|
  {
    if |rs| > 0 {
      var n := |rs| - 1;
      var init := rs[..n];
      CollectMeaning(init);
      assert forall i :: 0 <= i < n ==> init[i] == rs[i];
      if Collect(init).Failure? {
        var k :| 0 <= k < n && init[k] == Failure(Collect(init).error) &&
          forall j :: 0 <= j < k ==> init[j].Success?;
        assert rs[k] == Failure(Collect(rs).error);
      } else if rs[n].Failure? {
        assert rs[n] == Failure(Collect(rs).error);
      } else {
        assert Collect(rs).value == Collect(init).value + [rs[n].value];
      }
    }
  }

  /** One more result: a failure so far stays, otherwise the next result decides. */
  lemma CollectStep(rs: seq<Result<Entry, string>>, i: nat)
    requires i < |rs|
    ensures Collect(rs[..i + 1]) ==
      if Collect(rs[..i]).Failure? then Collect(rs[..i])
      else if rs[i].Failure? then Failure(rs[i].error)
      else Success(Collect(rs[..i]).value + [rs[i].value])
  {
    assert rs[..i + 1][..i] == rs[..i];
  }

  /** Once a prefix of the results fails, the results after it change nothing. */
  lemma {:induction false} FailureSticks(rs: seq<Result<Entry, string>>, n: nat)
    requires n <= |rs|
    requires Collect(rs[..n]).Failure?
    ensures Collect(rs) == Collect(rs[..n])
    decreases |rs| - n
  {
    if n < |rs| {
      assert rs[..n + 1][..n] == rs[..n];
      FailureSticks(rs, n + 1);
    } else {
      assert rs[..n] == rs;
    }
  }

  /** The entry-building loop over the dictionary file's lines; the first bad line ends it. */
  method ParseDictionary(lines: seq<string>) returns (r: Result<seq<Entry>, string>)
    ensures r == Collect(ParseEach(lines))
  {
    ghost var rs := ParseEach(lines);
    var entries: seq<Entry> := [];
    for i := 0 to |lines|
      invariant Collect(rs[..i]) == Success(entries)
    {
      var parsed := ParseDictLine(lines[i]);
      CollectStep(rs, i);
      if parsed.Failure? {
        FailureSticks(rs, i + 1);
        return Failure(parsed.error);
      }
      entries := entries + [parsed.value];
    }
    assert rs[..|lines|] == rs;
    return Success(entries);
  }

  // ---------------------------------------------------------------------
  // make_ou_compatible: the symbol table

  const VowelSymbols: set<string> := {"a", "e", "i", "o", "u", "N"}

  datatype SymbolType = Vowel | Stop
  datatype Symbol = Symbol(symbol: string, kind: SymbolType)

  /** The symbol a line of a `dictionary-{lang}.txt` file declares: its stripped text up to the first tab. */
  function SymbolOf(line: string): (s: string)
    ensures '\t' !in s && IsPrefix(s, Strip(line))
    ensures '\t' !in Strip(line) ==> s == Strip(line)
    ensures '\t' in Strip(line) ==> IsPrefix(s + "\t", Strip(line))
  {
    var t := Strip(line);
    var i := FindChar(t, '\t');
    if i == -1 then t
    else
      assert (t[..i] + "\t") == t[..i + 1];
      t[..i]
  }

  /** The symbols of one file's lines, in order. */
  function SymbolsOf(lines: seq<string>): (r: seq<string>)
    ensures |r| == |lines|
    decreases |lines|
  {
    if lines == [] then []
    else SymbolsOf(lines[..|lines| - 1]) + [SymbolOf(lines[|lines| - 1])]
  }

  /** The symbols of all the files, file after file. */
  function AllSymbols(dictionaries: seq<seq<string>>): seq<string>
    decreases |dictionaries|
  {
    if dictionaries == [] then []
    else AllSymbols(dictionaries[..|dictionaries| - 1]) + SymbolsOf(dictionaries[|dictionaries| - 1])
  }

  /** The vowel symbols of `xs`, in order. */
  function Vowels(xs: seq<string>): (r: seq<string>)
    ensures forall k :: 0 <= k < |r| ==> r[k] in VowelSymbols
    decreases |xs|
  {
    if xs == [] then []
    else Vowels(xs[..|xs| - 1]) + (if xs[|xs| - 1] in VowelSymbols then [xs[|xs| - 1]] else [])
  }

  /** The other symbols of `xs`, in order. */
  function Stops(xs: seq<string>): (r: seq<string>)
    ensures forall k :: 0 <= k < |r| ==> r[k] !in VowelSymbols
    decreases |xs|
  {
    if xs == [] then []
    else Stops(xs[..|xs| - 1]) + (if xs[|xs| - 1] in VowelSymbols then [] else [xs[|xs| - 1]])
  }

  /** Every symbol is either a vowel or a stop, and none is lost or duplicated. */
  lemma {:induction false} VowelsStopsPartition(xs: seq<string>)
    ensures multiset(Vowels(xs)) + multiset(Stops(xs)) == multiset(xs)
    decreases |xs|
  {
    if xs != [] {
      var init := xs[..|xs| - 1];
      VowelsStopsPartition(init);
      assert xs == init + [xs[|xs| - 1]];
    }
  }

  function Tagged(xs: seq<string>, kind: SymbolType): (r: seq<Symbol>)
    ensures |r| == |xs|
    ensures forall k :: 0 <= k < |r| ==> r[k] == Symbol(xs[k], kind)
  {
    seq(|xs|, k requires 0 <= k < |xs| => Symbol(xs[k], kind))
  }

  /** The `symbols` list of `dsdict.yaml`: vowels sorted by symbol, then stops sorted by symbol. */
  function SymbolTable(dictionaries: seq<seq<string>>): seq<Symbol> {
    var all := AllSymbols(dictionaries);
    Tagged(SortStrings(Vowels(all)), Vowel) + Tagged(SortStrings(Stops(all)), Stop)
  }

  /** One step of the per-line loop: appending a symbol extends exactly one of the two lists. */
  lemma SymbolStep(prefix: seq<string>, lines: seq<string>, j: nat)
    requires j < |lines|
    ensures SymbolsOf(lines[..j + 1]) == SymbolsOf(lines[..j]) + [SymbolOf(lines[j])]
    ensures var xs := prefix + SymbolsOf(lines[..j + 1]); var s := SymbolOf(lines[j]);
      Vowels(xs) == Vowels(prefix + SymbolsOf(lines[..j])) + (if s in VowelSymbols then [s] else []) &&
      Stops(xs) == Stops(prefix + SymbolsOf(lines[..j])) + (if s in VowelSymbols then [] else [s])
  {
    assert lines[..j + 1][..j] == lines[..j];
    var xs := prefix + SymbolsOf(lines[..j + 1]);
    assert xs[..|xs| - 1] == prefix + SymbolsOf(lines[..j]);
  }

  /** The symbol loops of `make_ou_compatible`: append per line, then sort both lists. */
  method BuildSymbolTable(dictionaries: seq<seq<string>>) returns (symbols: seq<Symbol>)
    ensures symbols == SymbolTable(dictionaries)
  {
    var vowels: seq<string> := [];
    var stops: seq<string> := [];
    for d := 0 to |dictionaries|
      invariant vowels == Vowels(AllSymbols(dictionaries[..d]))
      invariant stops == Stops(AllSymbols(dictionaries[..d]))
    {
      var prefix := AllSymbols(dictionaries[..d]);
      var lines := dictionaries[d];
      assert prefix + SymbolsOf(lines[..0]) == prefix;
      for j := 0 to |lines|
        invariant vowels == Vowels(prefix + SymbolsOf(lines[..j]))
        invariant stops == Stops(prefix + SymbolsOf(lines[..j]))
      {
        SymbolStep(prefix, lines, j);
        var s := SymbolOf(lines[j]);
        if s in VowelSymbols {
          vowels := vowels + [s];
        } else {
          stops := stops + [s];
        }
      }
      assert lines[..|lines|] == lines;
      assert dictionaries[..d + 1][..d] == dictionaries[..d];
    }
    assert dictionaries[..|dictionaries|] == dictionaries;
    vowels := SortStrings(vowels);
    stops := SortStrings(stops);
    symbols := Tagged(vowels, Vowel) + Tagged(stops, Stop);
  }

  /** Tagging a list and then a second list puts the first list's items first. */
  lemma TaggedConcat(v: seq<string>, s: seq<string>)
    ensures var t := Tagged(v, Vowel) + Tagged(s, Stop);
      |t| == |v| + |s|
      && (forall k :: 0 <= k < |v| ==> t[k] == Symbol(v[k], Vowel))
      && (forall k :: |v| <= k < |t| ==> t[k] == Symbol(s[k - |v|], Stop))
      && seq(|t|, k requires 0 <= k < |t| => t[k].symbol) == v + s
  {
    var t := Tagged(v, Vowel) + Tagged(s, Stop);
    assert seq(|t|, k requires 0 <= k < |t| => t[k].symbol) == v + s;
  }

  /** Sorting keeps the vowel lists' members vowels and the stop lists' members stops. */
  lemma SortedGroups(all: seq<string>)
    ensures forall k :: 0 <= k < |SortStrings(Vowels(all))| ==> SortStrings(Vowels(all))[k] in VowelSymbols
    ensures forall k :: 0 <= k < |SortStrings(Stops(all))| ==> SortStrings(Stops(all))[k] !in VowelSymbols
  {
    var v := SortStrings(Vowels(all));
    var s := SortStrings(Stops(all));
    forall k | 0 <= k < |v| ensures v[k] in VowelSymbols {
      assert v[k] in multiset(Vowels(all));
    }
    forall k | 0 <= k < |s| ensures s[k] !in VowelSymbols {
      assert s[k] in multiset(Stops(all));
    }
  }

  /** The symbol table lists every declared symbol exactly as often as it is declared. */
  lemma SymbolTableCounts(dictionaries: seq<seq<string>>)
    ensures var t := SymbolTable(dictionaries);
      multiset(seq(|t|, k requires 0 <= k < |t| => t[k].symbol)) == multiset(AllSymbols(dictionaries))
  {
    var all := AllSymbols(dictionaries);
    var v := SortStrings(Vowels(all));
    var s := SortStrings(Stops(all));
    TaggedConcat(v, s);
    assert multiset(v + s) == multiset(Vowels(all)) + multiset(Stops(all));
    VowelsStopsPartition(all);
  }

  /**
   * Exactly the symbols of the vowel set are tagged as vowels, all vowels come
   * before all stops, and each group is in code-point order.
   */
  lemma SymbolTableOrdered(dictionaries: seq<seq<string>>)
    ensures var t := SymbolTable(dictionaries);
      forall k :: 0 <= k < |t| ==> (t[k].kind == Vowel <==> t[k].symbol in VowelSymbols)
    ensures var t := SymbolTable(dictionaries);
      forall i, j :: 0 <= i < |t| && 0 <= j < |t| && t[i].kind == Vowel && t[j].kind == Stop ==> i < j
    ensures var t := SymbolTable(dictionaries);
      forall i, j :: 0 <= i < j < |t| && t[i].kind == t[j].kind ==> LessEq(t[i].symbol, t[j].symbol)
  {
    var all := AllSymbols(dictionaries);
    var v := SortStrings(Vowels(all));
    var s := SortStrings(Stops(all));
    var t := SymbolTable(dictionaries);
    TaggedConcat(v, s);
    SortedGroups(all);
    forall i, j | 0 <= i < j < |t| && t[i].kind == t[j].kind
      ensures LessEq(t[i].symbol, t[j].symbol)
    {
      if j < |v| {
        assert Sorted(v);
      } else {
        assert Sorted(s);
        assert i >= |v|;
      }
    }
  }

  // ---------------------------------------------------------------------
  // make_ou_compatible: sub-banks and the voice-bank folder

  /** One entry of `subbanks` in `character.yaml`. */
  datatype Subbank = Subbank(color: string, suffix: string)

  /** The sub-bank list for the given `.emb` file names, numbered from 1. */
  function SubbankList(embFiles: seq<string>): (r: seq<Subbank>)
    ensures |r| == |embFiles|
    ensures forall k :: 0 <= k < |r| ==> r[k].suffix == SplitExt(embFiles[k]).0
    ensures forall k :: 0 <= k < |r| ==> r[k].color == Pad2(k + 1) + ": " + r[k].suffix
  {
    seq(|embFiles|, k requires 0 <= k < |embFiles| =>
      var name := SplitExt(embFiles[k]).0;
      Subbank(Pad2(k + 1) + ": " + name, name))
  }

  /** `character.yaml` carries sub-banks only when `.emb` files were found. */
  function Subbanks(embFiles: Option<seq<string>>): (r: Option<seq<Subbank>>)
    ensures r.Some? <==> embFiles.Some? && |embFiles.value| > 0
    ensures r.Some? ==> r.value == SubbankList(embFiles.value)
  {
    if embFiles.Some? && |embFiles.value| > 0 then Some(SubbankList(embFiles.value)) else None
  }

  /** A numbered label `digits: text` reads back its number from the digits before the first colon. */
  lemma LabelNumber(p: string, text: string)
    requires AllDigits(p)
    ensures FindChar(p + ": " + text, ':') == |p|
    ensures (p + ": " + text)[..|p|] == p && (p + ": " + text)[|p|..] == ": " + text
  {
    var c := p + ": " + text;
    assert ':' !in p by {
      forall j | 0 <= j < |p| ensures p[j] != ':' {
        assert IsDigit(p[j]);
      }
    }
    assert c == p + (": " + text);
    assert c[..|p|] == p && c[|p|..] == ": " + text;
    FindCharAt(c, ':', |p|);
  }

  /** A sub-bank colour reads back as its 1-based position: the digits before the first colon. */
  lemma SubbankColorNumber(embFiles: seq<string>, k: nat)
    requires k < |embFiles|
    ensures var c := SubbankList(embFiles)[k].color; var i := FindChar(c, ':');
      2 <= i && AllDigits(c[..i]) && ParseNat(c[..i]) == k + 1
      && c[i..] == ": " + SubbankList(embFiles)[k].suffix
  {
    var b := SubbankList(embFiles)[k];
    LabelNumber(Pad2(k + 1), b.suffix);
  }

  /** Different sub-banks get different colours. */
  lemma SubbankColorsDistinct(embFiles: seq<string>, i: nat, j: nat)
    requires i < j < |embFiles|
    ensures SubbankList(embFiles)[i].color != SubbankList(embFiles)[j].color
  {
    SubbankColorNumber(embFiles, i);
    SubbankColorNumber(embFiles, j);
  }

  /** The voice-bank folder name: the character name with every space turned into an underscore. */
  function CharacterFolderName(charaName: string): (r: string)
    ensures |r| == |charaName| && ' ' !in r
    ensures forall i :: 0 <= i < |r| ==> r[i] == (if charaName[i] == ' ' then '_' else charaName[i])
  {
    ReplaceOneChar(charaName, ' ', '_');
    var r := ReplaceAll(charaName, " ", "_");
    assert forall i :: 0 <= i < |r| ==> r[i] != ' ';
    r
  }

  /** Where the finished voice bank ends up: the output folder joined with the folder name. */
  function FinalOutputPath(outputPath: string, charaName: string): (p: string)
    ensures IsSuffix(CharacterFolderName(charaName), p)
    ensures '/' !in charaName ==> Basename(p) == CharacterFolderName(charaName)
  {
    var name := CharacterFolderName(charaName);
    assert '/' !in charaName ==> '/' !in name by {
      if '/' !in charaName {
        forall i | 0 <= i < |name| ensures name[i] != '/' {
          assert charaName[i] in charaName;
        }
      }
    }
    PathJoin(outputPath, name)
  }
}
