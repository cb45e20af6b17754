# ds-train-scripts, modelled in Dafny

This project models the deterministic core of the DiffSinger training helper
scripts in TylorShine/ds-train-scripts. Forced alignment, grapheme-to-phoneme
conversion and ONNX export are done by outside tools. The scripts wrap those
tools in string, list, table and configuration transformations, and those are
what the model covers:

- `align_domino.py` (module `AlignDomino`): `pre_cleanup` splits the phoneme
  string, merges runs of `N` with an in-place pop loop, and applies an ordered
  table of substring rewrites. The aligner's triples are rendered as
  tab-separated label lines in hundred-nanosecond ticks.
- `g2p_openjtalk.py` (module `G2pOpenjtalk`): the allow-list character filter,
  the `～`→`ー` rewrite, the keyword arguments passed to the converter, `pau`
  sandwiching, and the per-file step of the batch conversion.
- `extract_data.py` (module `ExtractData`):
  - the `SP`/`br` label rewrite;
  - `collect_phonemes` over already-read lab lines, CSV rows or `.ds` entries;
  - the vowel/liquid/consonant partition with the dictionary text;
  - the patch of the first `SP` in a transcription table.
- `export_onnx.py` (module `ExportOnnx`):
  - the two first-match passes of `update_hparams`, with the file written and read back (Python `readlines`) between them;
  - the plan `export_model` carries out;
  - the two renaming passes;
  - the dictionary, symbol-table, sub-bank and folder-name pieces of
    `make_ou_compatible`.
- `export_onnx_nsf_hifigan.py` (module `ExportOnnxNsfHifigan`): its own
  `export_model`. Its `update_hparams` and first renaming pass are the same
  code as in `export_onnx.py` and reuse `ExportOnnx`. Its second pass is
  `ExportOnnx.RenameDoubled` applied to every file.
- `edit_config.py`:
  - module `EditConfig`:
    - the option-to-flag decision tables;
    - speaker discovery and test-prefix selection;
    - the in-place edits of the YAML configurations, as a class `YamlConfig`
      driven by an edit script.
  - module `HparamsWorkDir`: the final regular-expression rewrite of
    `utils/hparams.py`.

Supporting modules:

- `Wrappers`: `Option` and `Result`.
- `Strings`: Python `str` operations such as `replace`, `split`, `join`,
  `strip`, `isspace` and `<`.
- `Paths`: `posixpath` `basename`, `dirname`, `splitext` and `join`.
- `Numerals`: decimal rendering and parsing of integers.

External collaborators become function parameters:

- the aligner and the converter;
- `os.walk`, seen as a function from a directory to its walk;
- `random.shuffle`, seen as a function from the call number and the list to
  the shuffled list.

## Model

| member | source | states |
|---|---|---|
| AlignDomino.NonEmpty | align_domino.py:27 | the filtered tokens are exactly the non-empty input tokens |
| AlignDomino.TokensAreWords | align_domino.py:26-27 | every token is non-empty and holds no space |
| AlignDomino.SpacesOnlyHaveNoTokens | align_domino.py:26-27 | a text of spaces only yields no token |
| AlignDomino.JoinWellSpaced | align_domino.py:36 | joining non-empty space-free tokens with `" "` gives a string with no leading, trailing or doubled space, non-empty when there is a token |
| AlignDomino.JoinedIsWellSpaced | align_domino.py:26-36 | the string joined before the rewrites has no leading, trailing or doubled space |
| AlignDomino.MergedAreWords | align_domino.py:26-34 | the merged tokens are still non-empty and space-free |
| AlignDomino.CollapseN | align_domino.py:29-34 | merging never lengthens, keeps the last token and invents no token |
| AlignDomino.CollapseHasNoAdjacentN | align_domino.py:29-34 | after merging no two adjacent tokens are both `N` |
| AlignDomino.CollapseKeepsOthers | align_domino.py:29-34 | every token other than `N` survives, in order |
| AlignDomino.CollapseOneNPerRun | align_domino.py:29-34 | the number of `N` left equals the number of maximal `N` runs |
| AlignDomino.CollapseIdentity | align_domino.py:29-34 | tokens without adjacent `N`s are left unchanged |
| AlignDomino.MergeIteration | align_domino.py:30-34 | at iteration `i` the indices `i-offset` and `i-offset+1` are in range, and popping or not keeps the list equal to the merged prefix plus the unread tokens |
| AlignDomino.MergeRepeatedN | align_domino.py:29-34 | the pop/offset loop computes the merge of the tokens |
| AlignDomino.RunReplacements | align_domino.py:38-39 | the loop applies the rewrites in table order, each as `str.replace` |
| AlignDomino.ApplyKeepsSpaces | align_domino.py:38-39 | rewrites whose pattern and replacement hold equally many spaces keep the number of spaces |
| AlignDomino.ReplaceListKeepsSpaces | align_domino.py:13-24 | every pattern of the table is non-empty and holds as many spaces as its replacement |
| AlignDomino.EmptyStaysEmpty | align_domino.py:38-39 | the rewrites turn `""` into `""` |
| AlignDomino.PreCleanup | align_domino.py:11-41 | `pre_cleanup` returns the rewritten join of the merged tokens |
| AlignDomino.CleanedTokenCount | align_domino.py:26-39 | the cleaned string has as many space-separated tokens as the merge left |
| AlignDomino.SpacesOnlyCleanToEmpty | align_domino.py:26-41 | a text of spaces only is cleaned to `""` |
| AlignDomino.OtherWhitespaceSurvives | align_domino.py:26-41 | only `" "` separates tokens: a non-empty text of other whitespace (tabs, newlines) with no space comes back unchanged |
| AlignDomino.LaterRewriteRecreatesPattern | align_domino.py:13-24 | `"U U cl"` is cleaned to `"U u cl"`, which still contains the earlier pattern `U u` |
| AlignDomino.Truncate | align_domino.py:70 | `int()` truncates toward zero, for both signs |
| AlignDomino.TicksRoundHalfUp | align_domino.py:70 | a non-negative time becomes the nearest tick count, halves rounded up |
| AlignDomino.TicksMonotone | align_domino.py:70 | a later time never gets fewer ticks |
| AlignDomino.ToTicks | align_domino.py:70 | the conversion keeps the triple count, each symbol, and start <= end |
| AlignDomino.LabelLines | align_domino.py:73 | one label line per triple, in order |
| AlignDomino.LabelLineRoundTrip | align_domino.py:73 | a label line has no newline and parses back to its triple |
| AlignDomino.ParseLinesRoundTrip | align_domino.py:73 | the label lines parse back to the triples |
| AlignDomino.SerializeRoundTrip | align_domino.py:73 | the text is empty iff there is no triple, has one line per triple, and parses back to the triples |
| AlignDomino.Align | align_domino.py:53-75 | the aligner receives the cleaned text, or the raw text without cleanup; its failure is passed on and its success is serialised |
| G2pOpenjtalk.Clean | g2p_openjtalk.py:24 | the cleaned text is no longer than the input and is made of allowed characters only |
| G2pOpenjtalk.CleanIsSubsequence | g2p_openjtalk.py:24 | the cleaned text is a subsequence of the input |
| G2pOpenjtalk.CleanCounts | g2p_openjtalk.py:24 | every allowed character is kept as often as it occurs, and every other one is dropped |
| G2pOpenjtalk.CleanFixedIffAllowed | g2p_openjtalk.py:24 | cleaning leaves a text unchanged iff it is all allowed characters |
| G2pOpenjtalk.CleanIdempotent | g2p_openjtalk.py:24 | cleaning twice is cleaning once |
| G2pOpenjtalk.CleanEmptyIff | g2p_openjtalk.py:24-27 | the cleaned text is empty iff the input has no allowed character |
| G2pOpenjtalk.LongVowelMarksProperties | g2p_openjtalk.py:30 | the rewrite keeps the length, leaves no `～`, turns each `～` into `ー`, changes nothing else, and stays inside the allow-list |
| G2pOpenjtalk.ConverterInputShape | g2p_openjtalk.py:24-30 | the converter input is as long as the cleaned text, allowed throughout, and free of `～` |
| G2pOpenjtalk.Args | g2p_openjtalk.py:32-38 | `dialect` is passed iff the dictionary path is given and non-empty; `join=False` is passed iff no-join is asked |
| G2pOpenjtalk.Sandwich | g2p_openjtalk.py:44-48 | sandwiching keeps the string-or-list form |
| G2pOpenjtalk.SandwichShape | g2p_openjtalk.py:44-48 | a list grows by two with `pau` at both ends; a string gains `pau ` and ` pau`; the wrapped value is recoverable |
| G2pOpenjtalk.G2p | g2p_openjtalk.py:20-56 | returns `""` iff nothing survives cleaning, `None` iff the converter fails on non-empty input, and the cleaned text only when asked |
| G2pOpenjtalk.G2pPhonemes | g2p_openjtalk.py:41-53 | a successful call returns the converter's phonemes, sandwiched iff asked |
| G2pOpenjtalk.EmptyTextIgnoresConverter | g2p_openjtalk.py:25-27 | when nothing survives cleaning, the converter is never consulted |
| G2pOpenjtalk.OnlyCleanedInputMatters | g2p_openjtalk.py:24-41 | converters that agree on the cleaned input give the same result |
| G2pOpenjtalk.LabPath | g2p_openjtalk.py:129-130 | the output file is named after the text file's stem with `.lab` |
| G2pOpenjtalk.ConvertFile | g2p_openjtalk.py:87-147 | a file is skipped iff its raw text is empty; writes go to the `.lab` path; an unjoined list fails the write after the optional cleaned-text line |
| G2pOpenjtalk.CleanedTextLineFirst | g2p_openjtalk.py:132-135 | with `return_cleaned_text` the written file starts with the converter input on its own line |
| G2pOpenjtalk.SandwichedAlwaysWritten | g2p_openjtalk.py:120-137 | with `sandwich_pau` every successful conversion is written as one string; a list is joined with `|` |
| G2pOpenjtalk.DisallowedTextReachesConverter | g2p_openjtalk.py:96-99 | the text `"!"` gives `""` from the single-text function, but the batch step does not skip it |
| G2pOpenjtalk.ConvertFileCorrected | g2p_openjtalk.py:96-99 | the corrected step skips iff nothing survives cleaning, so the converter never receives empty text |
| G2pOpenjtalk.CorrectedAgreesWithG2p | g2p_openjtalk.py:96-99 | the corrected step skips exactly the texts for which the single-text function returns `""` |
| ExtractData.NoPairAfterReplace | extract_data.py:40 | a replacement free of `x` that does not start with `y` creates no `xy` pair, and removes that pair when it is the pattern |
| ExtractData.RewriteLabelsRemovesBoth | extract_data.py:40 | after the rewrite neither `SP` nor `br` occurs, so a second rewrite changes nothing |
| ExtractData.LabLineMembers | extract_data.py:55-60 | a lab line contributes exactly its non-excluded third field, if it is not blank |
| ExtractData.LabFileMembers | extract_data.py:55-60 | a file contributes exactly what its lines contribute |
| ExtractData.LabPhonemesByFile | extract_data.py:51-60 | the lab files contribute exactly what each file contributes |
| ExtractData.LabMembers | extract_data.py:50-60 | a phoneme is collected from labs iff it is the non-excluded third field of some non-blank line |
| ExtractData.KeptMembers | extract_data.py:70-72 | a token is kept iff it occurs and is not excluded |
| ExtractData.RowPhonemes | extract_data.py:69-72 | a row contributes exactly the non-excluded tokens of its `ph_seq`, or nothing without one |
| ExtractData.RowsMembers | extract_data.py:68-72 | a set of rows contributes exactly what its rows do |
| ExtractData.TableMembers | extract_data.py:62-84 | a phoneme is collected from tables iff it is a non-excluded token of some `ph_seq` |
| ExtractData.TablesMembers | extract_data.py:62-84 | a phoneme is collected from the tables exactly when it is collected from one of them |
| ExtractData.CollectedClean | extract_data.py:47-48 | nothing excluded is collected, and every phoneme is a non-empty word |
| ExtractData.CollectFromLabFile | extract_data.py:55-60 | the line loop fails iff some non-blank line has fewer than three fields, and otherwise adds the file's phonemes |
| ExtractData.CollectFromLab | extract_data.py:50-60 | the lab loops fail iff some line is short, and otherwise give the lab phonemes |
| ExtractData.CollectFromTables | extract_data.py:62-84 | the CSV and `.ds` loops give the table phonemes |
| ExtractData.CollectFromRows | extract_data.py:68-72 | the loop over one table's rows adds exactly that table's phonemes |
| ExtractData.CollectTokens | extract_data.py:70-72 | the loop over one `ph_seq` adds exactly its tokens that are not excluded |
| ExtractData.SortSet | extract_data.py:86 | `sorted` of a set is strictly increasing with the same members |
| ExtractData.CollectPhonemes | extract_data.py:44-86 | fails iff lab input has a short line; otherwise strictly sorted, duplicate-free, with exactly the collected members |
| ExtractData.CategoryByFirstChar | extract_data.py:89-102 | vowels are exactly the phonemes starting with a, i, u, e, o, N or M (so `NG` never matches by itself), and liquids those starting with y, w, l or r |
| ExtractData.Select | extract_data.py:96-102 | each list holds only phonemes of its category, drawn from the input |
| ExtractData.SelectPartitions | extract_data.py:96-102 | the three lists together hold every phoneme exactly once |
| ExtractData.DictTextLines | extract_data.py:107-109 | the dictionary text has one `p\tp` line per phoneme, in order, and ends with a newline |
| ExtractData.GeneratePhonemeFiles | extract_data.py:88-120 | fails iff some phoneme is empty; otherwise the three in-order lists, the dictionary text and the space-joined files |
| ExtractData.ComponentFileRoundTrip | extract_data.py:117-118 | a component file splits back on `" "` into its list |
| ExtractData.IndexOf | extract_data.py:181 | `list.index`: the first position of the value, or -1 iff it is missing |
| ExtractData.FixedTable | extract_data.py:180-183 | the patched table has as many rows as the input |
| ExtractData.FixedTableChangesOneCell | extract_data.py:180-183 | only the `ph_seq` cell of row 1 changes, with its first `SP` becoming `AP`; a table the guards reject is unchanged |
| ExtractData.FixInitialSp | extract_data.py:177-183 | the in-place update leaves the array equal to the patched table |
| ExportOnnx.FirstContaining | export_onnx.py:36-37 | the first line that contains the search text, or none iff no line does |
| ExportOnnx.ReplacedFirst | export_onnx.py:36-39 | only that first line changes, to replacement plus newline; the line count is kept; nothing changes without a match |
| ExportOnnx.ReplaceFirstContaining | export_onnx.py:36-39 | the enumerate-and-break loop performs one such pass |
| ExportOnnx.PassesOnLines | export_onnx.py:36-54 | the two passes over one list of lines keep the line count, and each line either stays or becomes the work-directory line |
| ExportOnnx.PassKeepsShape | export_onnx.py:36-39 | with a folder path free of line breaks, a pass keeps the lines in the shape `readlines` yields |
| ExportOnnx.PassesReadBack | export_onnx.py:41-49 | with a folder path free of line breaks, what the first pass writes is read back unchanged, and so is the final file |
| ExportOnnx.HparamsUpdated | export_onnx.py:28-57 | the new file text after read, pass, write, re-read, pass, write; with a folder path free of `\n` and `\r` it is the two passes over the file's lines, and reads back as them |
| ExportOnnx.UpdateHparams | export_onnx.py:28-57 | the method performs the reads, both passes and the writes (the same code is `update_hparams` in `export_onnx_nsf_hifigan.py`) |
| ExportOnnx.WorkDirLineIsQuoted | export_onnx.py:45-46 | the written line carries the marker the second pass searches for |
| ExportOnnx.PassesSetWorkDir | export_onnx.py:36-54 | if either form of the line is in the list, the two passes leave the new work-directory line in it |
| ExportOnnx.PassesSingleEdit | export_onnx.py:36-54 | when no quoted form precedes the first original form, the two passes change exactly that one line |
| ExportOnnx.UpdateHparamsSetsWorkDir | export_onnx.py:28-57 | for a folder path free of line breaks: if the file has either form of the line, the updated file has the new work-directory line |
| ExportOnnx.UpdateHparamsSingleEdit | export_onnx.py:28-57 | for a folder path free of line breaks and no quoted form before the first original form: the updated file differs from the old one in exactly that line |
| ExportOnnx.PlainLineReadsBack | export_onnx.py:41-49 | a line free of line breaks, written with its newline, reads back as that one line |
| ExportOnnx.WorkDirJoinReadsBack | export_onnx.py:33-34 | the original-form line alone reads back as one line |
| ExportOnnx.WorkDirLineSplits | export_onnx.py:41-49 | a written line whose folder path is `a`, `\n`, `b` reads back as two lines |
| ExportOnnx.FolderLineBreakAddsLine | export_onnx.py:41-57 | with a folder path `a`, `\n`, `b`, the re-read leaves `b'` behind as an extra last line, where lines read back as written would end with the work-directory line |
| ExportOnnx.OutputPath | export_onnx.py:83 | the output path ends with the model type, which is its basename |
| ExportOnnx.Silenced | export_onnx.py:89-90 | quiet mode only appends the redirection |
| ExportOnnx.ExportModel | export_onnx.py:59-101 | an empty checkpoint exports nothing; otherwise the folder name is the checkpoint folder's name, `_` and the model type; it sets the work directory to the checkpoint's folder; the command starts with the export script (`fir-acoustic-vocoder`) or the conda run of it (every other type), passes `--exp` with the folder name and `--out` with the output path, and is quiet when asked; the dictionary is copied iff one exists, and stashed iff it is copied and a custom dictionary exists |
| ExportOnnx.CommandPieces | export_onnx.py:84-90 | a command built from a head, the `--exp` and the `--out` arguments starts with the head and holds both arguments, quiet or not |
| ExportOnnx.ExportQuietAppends | export_onnx.py:84-90 | quiet mode's command is the plain command followed by `" >/dev/null 2>&1"` |
| ExportOnnx.FirstPatternIn | export_onnx.py:118-119 | the first rule whose pattern occurs in the name, or none iff none does |
| ExportOnnx.FirstPassName | export_onnx.py:117-124 | the loop over the rename table computes the first-pass name |
| ExportOnnx.FirstPassNoMatch | export_onnx.py:118-124 | rules that do not match leave the name alone |
| ExportOnnx.FirstPassMovedStays | export_onnx.py:122-124 | a file already moved from its listed name is not moved again |
| ExportOnnx.FirstPassSkip | export_onnx.py:118-124 | leading rules that do not match can be dropped |
| ExportOnnx.FirstPassTakesFirstMatch | export_onnx.py:117-124 | for any table, a file ends under the target of its first matching rule, or keeps its name |
| ExportOnnx.PatternsNotNested | export_onnx.py:105-113 | no pattern of the rename table occurs inside an earlier one |
| ExportOnnx.FirstPassRenamesOnce | export_onnx.py:105-124 | with the script's table, each file ends under the target of the first pattern it contains, or keeps its name (both export scripts run this pass) |
| ExportOnnx.AfterFirstSeparator | export_onnx.py:131 | `"".join(s.split(sep)[1:])` is the text after the first separator with later separators deleted |
| ExportOnnx.EmbNameDropsPrefix | export_onnx.py:129-135 | a `.emb` file loses everything through its first `_acoustic.` (failing that, `_variance.`), or keeps its name |
| ExportOnnx.RenameDoubledShape | export_onnx.py:136-141 | a doubled `acoustic_acoustic.` (failing that, `variance_variance.`) shortens the name by at least nine characters, a single occurrence is rewritten in place, and otherwise the name is unchanged (the second export script applies this to every file, `.emb` included) |
| ExportOnnx.RenameDoubledEveryOccurrence | export_onnx.py:136-141 | every `acoustic_acoustic.` (failing that, every `variance_variance.`) becomes `acoustic_` (`variance_`): the name is cut at each occurrence into pieces free of it, which rejoin to the name, and the pieces are rejoined with the single prefix |
| Strings.ReplaceBetweenPieces | export_onnx.py:136-141 | `str.replace` cuts the text at every occurrence into pieces that hold none and rejoin to the text, and joins them with the replacement |
| Strings.SplitPiecesNoSep | export_onnx.py:131-133 | no piece of `str.split(sep)` holds `sep` |
| ExportOnnx.ParseDictLine | export_onnx.py:302-311 | succeeds iff the stripped line has a tab; the grapheme has no tab, the phonemes no space, and together they rebuild the line |
| ExportOnnx.TabCutShape | export_onnx.py:306-307 | cutting a line at its first tab and splitting the rest on spaces gives at least one phoneme, none containing a space, and the pieces rebuild the line |
| ExportOnnx.ParseEach | export_onnx.py:301-307 | one parse result per dictionary line, in line order |
| ExportOnnx.CollectMeaning | export_onnx.py:300-311 | gathering succeeds iff every line parses, with one entry per line in order; otherwise the error is that of the first failing line, every earlier line having parsed |
| ExportOnnx.CollectStep | export_onnx.py:301-311 | one more line: an earlier failure stands, otherwise that line's parse decides and its entry is appended |
| ExportOnnx.FailureSticks | export_onnx.py:306 | once a line fails, the lines after it change nothing (the script stops at the first bad line) |
| ExportOnnx.ParseDictionary | export_onnx.py:300-311 | the loop returns exactly the gathered per-line results, so CollectMeaning describes its outcome |
| ExportOnnx.SymbolOf | export_onnx.py:316-319 | the symbol is the stripped line up to its first tab |
| ExportOnnx.SymbolsOf | export_onnx.py:315-319 | one symbol per line |
| ExportOnnx.Vowels | export_onnx.py:320-322 | only vowel symbols |
| ExportOnnx.Stops | export_onnx.py:323-324 | only non-vowel symbols |
| ExportOnnx.VowelsStopsPartition | export_onnx.py:320-324 | every symbol goes to exactly one of the two lists |
| ExportOnnx.Tagged | export_onnx.py:322-324 | each symbol is tagged with its kind, in order |
| ExportOnnx.SymbolStep | export_onnx.py:315-324 | appending one line's symbol extends exactly one of the two lists |
| ExportOnnx.BuildSymbolTable | export_onnx.py:313-330 | the append-then-sort loops compute the symbol table |
| ExportOnnx.TaggedConcat | export_onnx.py:330 | the vowel entries come first, then the stop entries |
| ExportOnnx.SortedGroups | export_onnx.py:327-328 | sorting keeps vowels vowels and stops stops |
| ExportOnnx.SymbolTableCounts | export_onnx.py:313-330 | the table lists every declared symbol exactly as often as it is declared |
| ExportOnnx.SymbolTableOrdered | export_onnx.py:320-330 | symbols are tagged vowel iff in the vowel set, vowels precede stops, and each group is sorted |
| ExportOnnx.SubbankList | export_onnx.py:365-369 | one sub-bank per `.emb` file: suffix is the name without extension, colour is `"{k:02}: suffix"` with k from 1 |
| ExportOnnx.Subbanks | export_onnx.py:364-369 | sub-banks are present iff `.emb` files were found |
| ExportOnnx.SubbankColorNumber | export_onnx.py:367 | a colour reads back as its 1-based position |
| ExportOnnx.SubbankColorsDistinct | export_onnx.py:366-369 | different sub-banks get different colours |
| ExportOnnx.CharacterFolderName | export_onnx.py:379 | the character name with each space replaced by `_` |
| ExportOnnx.FinalOutputPath | export_onnx.py:379 | the final folder is named after the character |
| ExportOnnxNsfHifigan.ExportModel | export_onnx_nsf_hifigan.py:50-84 | an empty checkpoint exports nothing; otherwise the folder name is the checkpoint folder's name, `_` and the model type; it writes to the output path; the work directory is set iff the model is not NSF-HiFiGAN; no dictionary is copied; quiet when asked; NSF-HiFiGAN passes its checkpoint and `--name` with the folder's name, every other type passes `--exp` with the folder name |
| ExportOnnxNsfHifigan.ExportQuietAppends | export_onnx_nsf_hifigan.py:76-77 | quiet mode's command is the plain command followed by `" >/dev/null 2>&1"` |
| EditConfig.ShallowDiffusion | edit_config.py:102-110 | `use_shallow` iff the mode is not `false`; `gt_shallow` iff the mode is neither `false` nor `true_aux_val`; `gt_shallow` implies `use_shallow` |
| EditConfig.ShallowChoicesCover | edit_config.py:102-110 | every consistent flag pair comes from exactly one of the three choices |
| EditConfig.PretrainCheckpointName | edit_config.py:117 | the bundled checkpoint lies in `pretrain_models/` and is named `{model_type}_pretrain.ckpt` |
| EditConfig.Finetune | edit_config.py:112-123 | with fine-tuning on, the checkpoint is the base model if given, else the bundled one, and shapes are not strict; off, there is no checkpoint and shapes are strict |
| EditConfig.SelectedParam | edit_config.py:125-144 | energy and breathiness go together and bring voicing; tension excludes the rest; any other choice sets all four false |
| EditConfig.ParamChoicesDistinct | edit_config.py:125-144 | the four choices give four different flag sets |
| EditConfig.PitchTraining | edit_config.py:148-159 | pitch iff the mode is not `false`; melody encoder iff neither `false` nor `standard`; the glide embedding is never used |
| EditConfig.PitchChoicesCover | edit_config.py:148-159 | every consistent flag set comes from exactly one of the three choices |
| EditConfig.SpeakerNames | edit_config.py:40 | the speakers are exactly the sub-directories of the data directory |
| EditConfig.RawDirs | edit_config.py:42 | one raw-data folder per speaker, named after it |
| EditConfig.CollectWanted | edit_config.py:50-53 | the walk loops gather the wanted files in walk order |
| EditConfig.CollectWantedIn | edit_config.py:51-52 | the loop over one directory's files appends exactly its wanted files, joined to the directory, in listing order |
| EditConfig.WantedFilesSound | edit_config.py:50-53 | every gathered path names a wanted file |
| EditConfig.WantedInSound | edit_config.py:51-53 | every path gathered from one directory names a wanted file |
| EditConfig.WantedFilesComplete | edit_config.py:50-53 | every wanted file of the walk is gathered |
| EditConfig.WantedInComplete | edit_config.py:51-53 | every wanted file of one directory is gathered |
| EditConfig.PositionMapSpec | edit_config.py:59 | every folder name is mapped to the position of its last occurrence |
| EditConfig.FolderNames | edit_config.py:59 | one base name per speaker folder |
| EditConfig.FolderId | edit_config.py:67 | the lookup always succeeds, at a folder of the same name no earlier than this one |
| EditConfig.FolderIdDistinct | edit_config.py:59-67 | with distinct folder names each folder's id is its own position |
| EditConfig.SpeakerPrefixRoundTrip | edit_config.py:70 | the id stands before the first colon of `"{id}:{stem}"` and reads back |
| EditConfig.FolderPrefix | edit_config.py:69-70 | a folder contributes at most one prefix, and one iff it has a `.ds` file |
| EditConfig.GetTestFiles | edit_config.py:45-72 | the method computes the singer type, speaker-id switch and test prefixes |
| EditConfig.SingleSpeakerTestFiles | edit_config.py:46-55 | exactly one speaker: single-speaker, no speaker ids, min(3, candidates) stems of `.wav`/`.ds` files |
| EditConfig.MultiSpeakerTestFiles | edit_config.py:56-70 | any other count, zero included: multi-speaker with speaker ids, one `id:stem` per folder holding a `.ds` file |
| EditConfig.FolderPrefixes | edit_config.py:61-70 | there are no more prefixes than speaker folders |
| EditConfig.UpdatedAt | edit_config.py:200-209 | a nested `update` fails iff a key on the path is missing or not a mapping; otherwise the target gains the pairs and nothing off the path changes |
| EditConfig.YamlConfig.constructor | edit_config.py:96-97 | the configuration holds the loaded mapping |
| EditConfig.YamlConfig.Update | edit_config.py:204-209 | the in-place nested update; a failing update changes nothing |
| EditConfig.UpdateBaseConfig | edit_config.py:88-92 | the base configuration changes only its precision |
| EditConfig.ApplyEditsFrame | edit_config.py:164-244 | a top-level key no edit touches keeps its presence and value |
| EditConfig.ApplyEditsSets | edit_config.py:164-244 | a key set by one edit and touched by no later edit keeps that value |
| EditConfig.ApplyEdit | edit_config.py:164-244 | one in-place statement advances the script, or fails with the script's error |
| EditConfig.BinarySaveDir | edit_config.py:81 | the binary folder is `binary` inside the save directory |
| EditConfig.RunEdits | edit_config.py:164-244 | running the statements in place gives the script's result, or its first error |
| EditConfig.ConfigureModel | edit_config.py:163-244 | the model configuration ends as the branch's edit script, as written (`val_gt_start` from `data_aug`), leaves it, or the run fails with its error |
| EditConfig.AcousticTouches | edit_config.py:190-213 | whatever `val_gt_start` it writes, the acoustic branch touches the common keys, the acoustic keys and three sections |
| EditConfig.VarianceTouches | edit_config.py:214-244 | the variance branch touches the common keys, the variance keys and five sections |
| EditConfig.AcousticLaterEdits | edit_config.py:200-213 | whatever `val_gt_start` it writes, the nested acoustic edits touch only the three sections |
| EditConfig.AcousticSettingsAreNotSections | edit_config.py:190-213 | the acoustic keys are not section names |
| EditConfig.VarianceSettingsAreNotSections | edit_config.py:215-244 | the variance keys are not section names |
| EditConfig.VarianceLaterEdits | edit_config.py:226-244 | the nested variance edits touch only the five sections |
| EditConfig.BranchKeys | edit_config.py:191-225 | each branch writes a fixed set of keys whatever the options |
| EditConfig.SharedKeysNotRewritten | edit_config.py:164-244 | no branch writes again a common key other than `hidden_size` |
| EditConfig.AcousticKeyKept | edit_config.py:191-199 | a successful acoustic run, as written or corrected, keeps every acoustic setting it wrote |
| EditConfig.VarianceKeyKept | edit_config.py:215-225 | a successful variance run keeps every variance setting it wrote |
| EditConfig.AcousticValues | edit_config.py:190-199 | in a successful acoustic run, as written or corrected: key-shift and speed embeddings on; embeddings follow `--selected-param`; shallow diffusion follows its mode |
| EditConfig.ApplyEditsWritesAt | edit_config.py:200-244 | a nested key written by an edit that always runs keeps its value when every later edit lies apart from it |
| EditConfig.UpdatedAtWrites | edit_config.py:200-209 | after a nested `update`, each updated key holds its new value |
| EditConfig.UpdatedAtApart | edit_config.py:200-209 | a nested `update` leaves every location apart from its path unchanged |
| EditConfig.ApplyEditsApart | edit_config.py:200-244 | a script whose edits all lie apart from a location leaves its value |
| EditConfig.AcousticSectionValues | edit_config.py:200-209 | in a successful acoustic run, as written or corrected: the backbone has the requested layers and channels, and `data_aug` switches random pitch shifting and random time stretching on |
| EditConfig.VarianceValues | edit_config.py:214-225 | duration always predicted; no glide embedding; pitch and melody encoder follow `--pitch-training`; the variance hidden size replaces the acoustic one |
| EditConfig.VariancePredictions | edit_config.py:215-220 | the predicted parameters follow `--selected-param` |
| EditConfig.VarianceSectionValues | edit_config.py:226-234 | a successful variance run prefers no `.ds` files and sets the duration and melody-encoder hidden sizes |
| EditConfig.VariancePredictorBackbone | edit_config.py:235-239 | a successful variance run gives the variance predictor a `lynxnet` backbone of the requested layers and channels |
| EditConfig.PitchPredictorBackbone | edit_config.py:240-244 | a successful variance run gives the pitch predictor a `lynxnet` backbone of the requested layers and channels |
| EditConfig.CommonKeyKept | edit_config.py:164-186 | a common key no branch rewrites keeps its common value |
| EditConfig.SpeakerEntries | edit_config.py:165-169 | the speaker group holds the speaker-id switch and the test prefixes |
| EditConfig.CommonSpeakerEntries | edit_config.py:164-186 | the common edit writes the speaker set-up |
| EditConfig.SpeakerValues | edit_config.py:164-186 | every successful run records the speaker-id switch and the test prefixes |
| EditConfig.CommonTrainingEntries | edit_config.py:176-185 | the common edit names the pitch-extractor checkpoint, the fine-tuning settings and the precision |
| EditConfig.CheckpointValues | edit_config.py:176-178 | every successful run names the RMVPE checkpoint iff RMVPE is chosen, and records the fine-tuning checkpoint |
| EditConfig.TrainingValues | edit_config.py:177-185 | every successful run records the precision and the shape strictness |
| EditConfig.FinetuneValues | edit_config.py:112-123 | with the derived settings, a checkpoint is recorded iff fine-tuning is on (the base model when given), and shapes are strict iff it is off |
| EditConfig.ValGtStartSet | edit_config.py:210-213 | on a configuration with `shallow_diffusion_args`, a successful acoustic run sets its `val_gt_start` to the chosen flag |
| EditConfig.ValGtStartAsWritten | edit_config.py:210-213 | as written, `val_gt_start` is true in every mode, `true_aux_val` included, where `gt_shallow` is false |
| EditConfig.ValGtStartFollowsMode | edit_config.py:210-213 | corrected, `val_gt_start` is true iff the mode is neither `false` nor `true_aux_val` |
| EditConfig.CorrectedChangesOnlyValGtStart | edit_config.py:210-213 | the corrected script succeeds or fails with the one as written, with the same error, and agrees with it on every top-level key except `shallow_diffusion_args` |
| EditConfig.LastEditDiffersInValue | edit_config.py:210-213 | two `update`s of one section that differ only in the value written succeed together and agree off that section |
| HparamsWorkDir.WorkDirKeyIsPlain | edit_config.py:253 | `args_work_dir` starts with no whitespace and holds no newline |
| HparamsWorkDir.SpaceEnd | edit_config.py:253 | a greedy `\s*` stops at the first non-whitespace character |
| HparamsWorkDir.LineEnd | edit_config.py:253 | a greedy `.*` stops at the first newline |
| HparamsWorkDir.AssignmentMatch | edit_config.py:253 | a match starts with the key and is longer than it |
| HparamsWorkDir.SubAbsent | edit_config.py:253 | a text that never mentions the key is unchanged |
| HparamsWorkDir.NoMatchAtPlainLine | edit_config.py:253 | no match starts at a line that does not mention the key |
| HparamsWorkDir.SubPlainLine | edit_config.py:253 | a line that does not mention the key is kept |
| HparamsWorkDir.SubIndent | edit_config.py:253 | leading whitespace is kept |
| HparamsWorkDir.MatchAtAssignment | edit_config.py:253 | at `key = value` the match ends where the value ends |
| HparamsWorkDir.SubAssignmentLine | edit_config.py:253 | an assignment line becomes its indentation plus the replacement, keeping its newline |
| HparamsWorkDir.SubLines | edit_config.py:253 | on well-formed lines exactly the assignments to the key are replaced, indentation kept, and every other line kept |
| HparamsWorkDir.SubTakesNextLineWhenValueMissing | edit_config.py:253 | `args_work_dir =` with no value swallows the next line |
| HparamsWorkDir.SubWorkDirLines | edit_config.py:253 | in a text of newline-terminated, well-formed lines, every `args_work_dir = ...` line becomes `args_work_dir = '<save_dir>'` and every other line is kept |
| HparamsWorkDir.RewriteAll | edit_config.py:253 | one rewritten line per line |
| HparamsWorkDir.SubstitutedAllRewrites | edit_config.py:253 | the substituted text is again a text of lines |
| HparamsWorkDir.RewriteStable | edit_config.py:253 | a rewritten line stays well formed and rewrites to itself |
| HparamsWorkDir.SubWorkDirIdempotent | edit_config.py:253 | on a text of newline-terminated, well-formed lines and a save directory without a newline, running the rewrite twice equals running it once |
| Strings.ReplaceFirst | extract_data.py:183 | `replace(pat, rep, 1)` replaces the leftmost occurrence only, and nothing without one |
| Strings.JoinSplit | align_domino.py:26-36 | joining a split with its own separator restores the text |
| Strings.UniversalNewlines | export_onnx.py:33-34 | reading in text mode leaves no `\r` |
| Strings.UniversalNewlinesPlain | export_onnx.py:33-34 | text without `\r` is read unchanged |
| Strings.SplitKeepEndsConcat | export_onnx.py:41-42 | writing the lines `readlines` yields gives back the text they were cut from |
| Strings.SplitKeepEndsShape | export_onnx.py:33-34 | text without `\r` is cut into non-empty lines with `\n` only at their end, each but the last ending with it |
| Strings.ReadLinesShape | export_onnx.py:33-34 | every file's lines have that shape |
| Strings.SplitAfterLine | export_onnx.py:48-49 | a line ending with `\n`, or the last, is cut off whole |
| Strings.ConcatFree | export_onnx.py:41-42 | a character in none of the lines is not in the written text |
| Strings.ReadLinesConcat | export_onnx.py:41-49 | lines of that shape, written and read again, come back unchanged |
| Strings.StripThenSplit | extract_data.py:56-58 | `strip().split()` equals `split()` |
| Strings.WordsEmptyIffBlank | extract_data.py:56-57 | `split()` is empty iff the line is blank |
| Paths.Basename | edit_config.py:55 | `os.path.basename` is a `/`-free suffix of the path, the whole path when it has no `/` |
| Numerals.ParseNatToString | edit_config.py:70 | a rendered number parses back to itself |

## Left out

- The aligner (`pydomino`), the converter (`pyopenjtalk`) and audio loading (`librosa`) are external. The aligner and converter are function parameters returning a result or a failure; audio is not modelled.
- The cached global aligner handle in `align_domino` and the script's `aligner` global are left out; they hold no logic.
- `main` of `align_domino.py` repeats the cleanup steps inline. Its file search, existing-output check and `%.3f` seconds formatting are file I/O and floating-point printing, and are not modelled.
- AlignDomino.Ticks: computed over exact reals; IEEE double rounding of `a * 10^7 + 0.5` is not modelled.
- G2pOpenjtalk.Allowed: `\w` is taken as ASCII letters, digits and `_`. Python's Unicode `\w` also keeps other letters and digits outside the listed ranges, such as accented Latin letters, which this model deletes.
- The file loop of `text_to_phonemes_openjtalk`, its directory checks and its count are left out; they are I/O. Reading and decoding errors are left out. The converter's own failure is modelled.
- Walking directories, reading and writing files, CSV and JSON parsing, the 7z extraction, `process_data` and `setup_directories` are left out; they are shell and file-system work. Lab files arrive as lines and tables as rows mapping column to text.
- `setup_environment`, all `os.system`/`subprocess` calls, file copies and moves, `rmtree`, the directory scan at the start of `make_ou_compatible`, and the YAML and text files it writes are left out. The values it builds are modelled.
- The `dictionary-{lang}.txt` files of `make_ou_compatible` are a parameter. The `languages` mapping that names them is not part of this model.
- Renaming: the file system, listing order and name collisions are left out. The model gives the name each listed file ends under.
- The `argparse` choices are not enforced. Every option is any string, and unlisted values take the source's final `else` branch.
- `shutil.copytree`, `os.makedirs`, YAML loading and dumping, and the prints of `edit_config.py` are left out. Configurations are `Value` mappings.
- `random.shuffle` is a parameter; lemmas that need it to be a permutation say so.
- EditConfig.TrainingValues, EditConfig.CheckpointValues: take the fine-tuning settings as a parameter; `EditConfig.FinetuneValues` ties them to the options.
- ExportOnnx.HparamsUpdated, ExportOnnx.UpdateHparamsSetsWorkDir, ExportOnnx.UpdateHparamsSingleEdit: the write and re-read between the two passes (export_onnx.py:41-49, and export_onnx_nsf_hifigan.py:32-40) are modelled, but the line-count and single-edit results are proved only for a folder path free of `\n` and `\r`. A path with a line break is split into several lines by the re-read; `ExportOnnx.FolderLineBreakAddsLine` shows one such case.
- ExportOnnx.UpdateHparams: the file `utils/hparams.py` is a text parameter and a returned text; opening it and the platform's newline translation on writing are not modelled (lines are written as they are).
- HparamsWorkDir.SubWorkDir: the save directory is inserted literally. `re.sub` would also interpret backslash escapes in the replacement.
- HparamsWorkDir.SubLines, HparamsWorkDir.SubWorkDirLines, HparamsWorkDir.SubWorkDirIdempotent: stated for texts whose every line ends with a newline. A line must either be an assignment to the key or not mention the key at all. The unanchored pattern also rewrites a mention such as `f(args_work_dir=x)`, which is not described; an assignment with no value swallows the next line (`HparamsWorkDir.SubTakesNextLineWhenValueMissing`). Idempotence also needs a save directory without a newline.
- `train.py` is not part of this model; it is launch glue.
- Reinserting punctuation is not implemented by any of these scripts and is not modelled.

## Findings

| source | as written | input that shows it | evidently intended | confidence | as-written member | corrected member |
|---|---|---|---|---|---|---|
| g2p_openjtalk.py:97 | the batch step skips a file only when its raw text is empty, although the message says "no Japanese text after cleaning" | a text file holding `!`: it cleans to `""` and the empty string is still passed to the converter | skip when the cleaned text is empty, as `g2p_openjtalk` does at lines 25-27 | not executed; high | G2pOpenjtalk.DisallowedTextReachesConverter | G2pOpenjtalk.ConvertFileCorrected |
| edit_config.py:210-213 | `val_gt_start` is set from `data_aug`, which is always true; `gt_shallow` from lines 102-110 is never used | `--use-shallow-diffusion true_aux_val` on a configuration with `shallow_diffusion_args`: validation still starts from the ground truth | `val_gt_start` follows `gt_shallow`, so `true_aux_val` validates from the auxiliary decoder | not executed; medium | EditConfig.ValGtStartAsWritten | EditConfig.ValGtStartFollowsMode |
