/**
 * Text cleaning and pause wrapping around grapheme-to-phoneme conversion
 * (g2p_openjtalk.py). The converter itself is a function parameter: it
 * receives the cleaned text and the keyword arguments, and either returns
 * phonemes (one string, or a list when joining is switched off) or fails.
 */
module G2pOpenjtalk {
  import opened Wrappers
  import opened Strings
  import opened Paths

  // ---------------------------------------------------------------------
  // The allow-list filter

  /** ASCII letters, digits and `_`: the word characters of the filter's `\w`. */
  predicate IsWordChar(c: char) {
    ('a' <= c <= 'z') || ('A' <= c <= 'Z') || ('0' <= c <= '9') || c == '_'
  }

  /**
   * The character class of the filter: CJK punctuation, kana, CJK ideographs
   * and compatibility ideographs, full-width forms, the horizontal ellipsis,
   * word characters and whitespace.
   */
  predicate Allowed(c: char) {
    ('　' <= c <= '〿') || ('぀' <= c <= 'ヿ') || ('㐀' <= c <= '䶿')
    || ('一' <= c <= '鿿') || ('豈' <= c <= '﫿') || ('！' <= c <= '～')
    || c == '…' || IsWordChar(c) || IsSpace(c)
  }

  predicate AllAllowed(s: string) {
    forall i :: 0 <= i < |s| ==> Allowed(s[i])
  }

  /** Removing every run of disallowed characters: the allowed ones, in order. */
  function Clean(s: string): (r: string)
    ensures |r| <= |s|
    ensures AllAllowed(r)
    decreases |s|
  {
    if s == [] then []
    else (if Allowed(s[0]) then [s[0]] else []) + Clean(s[1..])
  }

  /** `a` is `b` with some characters deleted. */
  predicate IsSubsequence(a: string, b: string)
    decreases |b|
  {
    if a == [] then true
    else if b == [] then false
    else if a[0] == b[0] then IsSubsequence(a[1..], b[1..])
    else IsSubsequence(a, b[1..])
  }

  /** The cleaned text is a subsequence of the input. */
  lemma {:induction false} CleanIsSubsequence(s: string)
    ensures IsSubsequence(Clean(s), s)
    decreases |s|
  {
    if s != [] {
      CleanIsSubsequence(s[1..]);
      if Allowed(s[0]) {
        assert Clean(s)[1..] == Clean(s[1..]);
      } else {
        assert Clean(s) == Clean(s[1..]);
        SubsequenceOfTail(Clean(s[1..]), s);
      }
    }
  }

  lemma {:induction false} SubsequenceOfTail(a: string, b: string)
    requires b != [] && IsSubsequence(a, b[1..])
    ensures IsSubsequence(a, b)
    decreases |b|, |a|
  {
    if a != [] && a[0] == b[0] {
      if |b| > 1 {
        SubsequenceDropHead(a, b[1..]);
      } else {
        assert false;
      }
    }
  }

  lemma {:induction false} SubsequenceDropHead(a: string, b: string)
    requires a != [] && IsSubsequence(a, b)
    ensures IsSubsequence(a[1..], b)
    decreases |b|, |a|
  {
    if b == [] {
      assert false;
    } else if a[0] == b[0] {
      if a[1..] != [] {
        SubsequenceOfTail(a[1..], b);
      }
    } else {
      SubsequenceDropHead(a, b[1..]);
      if a[1..] != [] {
        SubsequenceOfTail(a[1..], b);
      }
    }
  }

  /** Every allowed character survives cleaning as often as it occurs; no other does. */
  lemma {:induction false} CleanCounts(s: string, c: char)
    ensures multiset(Clean(s))[c] == if Allowed(c) then multiset(s)[c] else 0
    decreases |s|
  {
    if s != [] {
      CleanCounts(s[1..], c);
      assert s == [s[0]] + s[1..];
    }
  }

  /** Text made of allowed characters only is left as it is, and only such text is. */
  lemma {:induction false} CleanFixedIffAllowed(s: string)
    ensures Clean(s) == s <==> AllAllowed(s)
    decreases |s|
  {
    if s != [] {
      CleanFixedIffAllowed(s[1..]);
      if !Allowed(s[0]) {
        assert |Clean(s)| < |s| by { assert |Clean(s)| == |Clean(s[1..])|; }
      }
    }
  }

  /** Cleaning is idempotent. */
  lemma CleanIdempotent(s: string)
    ensures Clean(Clean(s)) == Clean(s)
  {
    CleanFixedIffAllowed(Clean(s));
  }

  /** The cleaned text is empty exactly when the input holds no allowed character. */
  lemma {:induction false} CleanEmptyIff(s: string)
    ensures Clean(s) == [] <==> forall i :: 0 <= i < |s| ==> !Allowed(s[i])
    decreases |s|
  {
    if s != [] {
      CleanEmptyIff(s[1..]);
      assert forall i :: 1 <= i < |s| ==> s[i] == s[1..][i - 1];
    }
  }

  // ---------------------------------------------------------------------
  // The wave-dash rewrite

  /** `text.replace("～", "ー")`: full-width tilde to the long-vowel mark. */
  function LongVowelMarks(s: string): string {
    ReplaceAll(s, "～", "ー")
  }

  /**
   * The rewrite keeps the length, removes every full-width tilde, changes
   * nothing else, and keeps cleaned text inside the allow-list.
   */
  lemma LongVowelMarksProperties(s: string)
    ensures |LongVowelMarks(s)| == |s|
    ensures '～' !in LongVowelMarks(s)
    ensures forall i :: 0 <= i < |s| && s[i] != '～' ==> LongVowelMarks(s)[i] == s[i]
    ensures forall i :: 0 <= i < |s| && s[i] == '～' ==> LongVowelMarks(s)[i] == 'ー'
    ensures AllAllowed(s) ==> AllAllowed(LongVowelMarks(s))
  {
    ReplaceOneChar(s, '～', 'ー');
    var r := LongVowelMarks(s);
    assert "～" == ['～'] && "ー" == ['ー'];
  }

  /** The text handed to the converter. */
  function ConverterInput(text: string): string {
    LongVowelMarks(Clean(text))
  }

  /** The converter input is never empty when cleaning left something, and stays inside the allow-list. */
  lemma ConverterInputShape(text: string)
    ensures |ConverterInput(text)| == |Clean(text)|
    ensures AllAllowed(ConverterInput(text))
    ensures '～' !in ConverterInput(text)
  {
    LongVowelMarksProperties(Clean(text));
  }

  // ---------------------------------------------------------------------
  // The converter and its result

  /** What the converter returns: a joined string, or a list when `join=False`. */
  datatype Phonemes = Joined(text: string) | Listed(items: seq<string>)

  /**
   * The keyword arguments of the call: `kana=False` always, `dialect` when
   * a dictionary path is given, `join=False` when joining is switched off.
   */
  datatype ConverterArgs = ConverterArgs(dialect: Option<string>, join: Option<bool>)

  type Converter = (string, ConverterArgs) -> Result<Phonemes, string>

  /** A dictionary path counts only when it is neither absent nor empty. */
  function Args(dictionaryPath: Option<string>, noJoin: bool): (a: ConverterArgs)
    ensures a.dialect.Some? <==> dictionaryPath.Some? && dictionaryPath.value != ""
    ensures a.dialect.Some? ==> a.dialect == dictionaryPath
    ensures a.join.Some? <==> noJoin
    ensures a.join.Some? ==> !a.join.value
  {
    ConverterArgs(
      if dictionaryPath.Some? && dictionaryPath.value != "" then dictionaryPath else None,
      if noJoin then Some(false) else None)
  }

  /** A pause symbol at both ends, for a string or for a list. */
  function Sandwich(p: Phonemes): (r: Phonemes)
    ensures r.Joined? <==> p.Joined?
  {
    match p
    case Joined(s) => Joined("pau " + s + " pau")
    case Listed(l) => Listed(["pau"] + l + ["pau"])
  }

  /** Removes the pause symbols that `Sandwich` added, if they are there. */
  function Unsandwich(p: Phonemes): Phonemes {
    match p
    case Joined(s) =>
      if |s| >= 8 && s[..4] == "pau " && s[|s| - 4..] == " pau" then Joined(s[4..|s| - 4]) else p
    case Listed(l) =>
      if |l| >= 2 && l[0] == "pau" && l[|l| - 1] == "pau" then Listed(l[1..|l| - 1]) else p
  }

  /**
   * Sandwiching grows a list by two with "pau" first and last, and a string
   * by "pau " in front and " pau" behind; what was wrapped is recovered intact.
   */
  lemma SandwichShape(p: Phonemes)
    ensures p.Listed? ==> (|Sandwich(p).items| == |p.items| + 2
      && Sandwich(p).items[0] == "pau" && Sandwich(p).items[|p.items| + 1] == "pau"
      && Sandwich(p).items[1..|p.items| + 1] == p.items)
    ensures p.Joined? ==> IsPrefix("pau ", Sandwich(p).text) && IsSuffix(" pau", Sandwich(p).text)
    ensures Unsandwich(Sandwich(p)) == p
  {
    match p
    case Joined(s) =>
      var t := "pau " + s + " pau";
      assert t[..4] == "pau " && t[|t| - 4..] == " pau" && t[4..|t| - 4] == s;
    case Listed(l) =>
      var m := ["pau"] + l + ["pau"];
      assert m[1..|m| - 1] == l;
  }

  /** The values `g2p_openjtalk` can return. */
  datatype Output =
    | EmptyString                                 // "" when nothing survives cleaning
    | PhonemesOnly(phonemes: Phonemes)
    | WithCleanedText(phonemes: Phonemes, cleaned: string)
    | NoneValue                                   // the converter raised

  /** `g2p_openjtalk(text, dictionary_path, sandwich_pau, no_join, return_cleaned_text)`. */
  function G2p(text: string, dictionaryPath: Option<string>, sandwichPau: bool, noJoin: bool,
               returnCleanedText: bool, g2p: Converter): (r: Output)
    ensures Clean(text) == [] <==> r == EmptyString
    ensures r.NoneValue? <==> Clean(text) != [] && g2p(ConverterInput(text), Args(dictionaryPath, noJoin)).Failure?
    ensures r.WithCleanedText? ==> returnCleanedText && r.cleaned == ConverterInput(text)
    ensures r.PhonemesOnly? ==> !returnCleanedText
  {
    var cleaned := Clean(text);
    if cleaned == [] then EmptyString
    else
      var input := LongVowelMarks(cleaned);
      match g2p(input, Args(dictionaryPath, noJoin))
      case Failure(_) => NoneValue
      case Success(p) =>
        var q := if sandwichPau then Sandwich(p) else p;
        if returnCleanedText then WithCleanedText(q, input) else PhonemesOnly(q)
  }

  /** The phonemes of a successful call: the converter's own, wrapped when asked. */
  lemma G2pPhonemes(text: string, dictionaryPath: Option<string>, sandwichPau: bool, noJoin: bool,
                    returnCleanedText: bool, g2p: Converter)
    requires Clean(text) != []
    requires g2p(ConverterInput(text), Args(dictionaryPath, noJoin)).Success?
    ensures var p := g2p(ConverterInput(text), Args(dictionaryPath, noJoin)).value;
      var r := G2p(text, dictionaryPath, sandwichPau, noJoin, returnCleanedText, g2p);
      r.phonemes == (if sandwichPau then Sandwich(p) else p)
      && (returnCleanedText <==> r.WithCleanedText?)
  {
  }

  /** When nothing survives cleaning the converter is never consulted. */
  lemma EmptyTextIgnoresConverter(text: string, dictionaryPath: Option<string>, sandwichPau: bool,
                                  noJoin: bool, returnCleanedText: bool, g1: Converter, g2: Converter)
    requires Clean(text) == []
    ensures G2p(text, dictionaryPath, sandwichPau, noJoin, returnCleanedText, g1)
         == G2p(text, dictionaryPath, sandwichPau, noJoin, returnCleanedText, g2)
  {
  }

  /** Two converters that agree on the cleaned input give the same result. */
  lemma OnlyCleanedInputMatters(text: string, dictionaryPath: Option<string>, sandwichPau: bool,
                                noJoin: bool, returnCleanedText: bool, g1: Converter, g2: Converter)
    requires g1(ConverterInput(text), Args(dictionaryPath, noJoin)) == g2(ConverterInput(text), Args(dictionaryPath, noJoin))
    ensures G2p(text, dictionaryPath, sandwichPau, noJoin, returnCleanedText, g1)
         == G2p(text, dictionaryPath, sandwichPau, noJoin, returnCleanedText, g2)
  {
  }

  // ---------------------------------------------------------------------
  // The per-file step of text_to_phonemes_openjtalk

  /** What happens to one text file. */
  datatype FileOutcome =
    | Skipped                                     // the file's text is empty
    | Written(path: string, contents: string)     // the .lab file, counted as converted
    | WriteFailed(path: string, contents: string) // a list could not be written; what reached the file
    | Failed                                      // the converter raised; no file is opened

  /** The `.lab` file next to which a text file's phonemes are written. */
  function LabPath(outputDir: string, textFile: string): (p: string)
    ensures Basename(p) == Stem(textFile) + ".lab"
  {
    assert '/' !in Basename(textFile);
    assert '/' !in Stem(textFile) by {
      forall i | 0 <= i < |Stem(textFile)| ensures Stem(textFile)[i] != '/' {
        assert Stem(textFile)[i] == Basename(textFile)[i];
      }
    }
    PathJoin(outputDir, Stem(textFile) + ".lab")
  }

  /** The converter's result as it is written: a sandwiched list is joined with "|". */
  function ToWrite(p: Phonemes, sandwichPau: bool): (w: Phonemes)
    ensures w.Listed? ==> !sandwichPau && w == p
  {
    if !sandwichPau then p
    else match p
      case Joined(s) => Joined("pau " + s + " pau")
      case Listed(l) => Joined(Join(["pau"] + l + ["pau"], "|"))
  }

  /**
   * One file of `text_to_phonemes_openjtalk`. The file is skipped only when
   * its raw text is empty; text that cleans to nothing still reaches the
   * converter.
   */
  function ConvertFile(outputDir: string, textFile: string, text: string, dictionaryPath: Option<string>,
                       sandwichPau: bool, noJoin: bool, returnCleanedText: bool, g2p: Converter): (r: FileOutcome)
    ensures r.Skipped? <==> text == []
    ensures r.Written? || r.WriteFailed? ==> r.path == LabPath(outputDir, textFile)
    ensures r.WriteFailed? ==> !sandwichPau && r.contents == (if returnCleanedText then ConverterInput(text) + "\n" else "")
  {
    if text == [] then Skipped
    else
      var cleaned := ConverterInput(text);
      match g2p(cleaned, Args(dictionaryPath, noJoin))
      case Failure(_) => Failed
      case Success(p) =>
        var path := LabPath(outputDir, textFile);
        var head := if returnCleanedText then cleaned + "\n" else "";
        match ToWrite(p, sandwichPau)
        case Joined(s) => Written(path, head + s)
        case Listed(_) => WriteFailed(path, head)
  }

  /** With `return_cleaned_text` the written file starts with the converter's input on a line of its own. */
  lemma CleanedTextLineFirst(outputDir: string, textFile: string, text: string, dictionaryPath: Option<string>,
                             sandwichPau: bool, noJoin: bool, g2p: Converter)
    ensures var r := ConvertFile(outputDir, textFile, text, dictionaryPath, sandwichPau, noJoin, true, g2p);
      r.Written? || r.WriteFailed? ==> IsPrefix(ConverterInput(text) + "\n", r.contents)
  {
    var r := ConvertFile(outputDir, textFile, text, dictionaryPath, sandwichPau, noJoin, true, g2p);
    if r.Written? {
      var h := ConverterInput(text) + "\n";
      var p := g2p(ConverterInput(text), Args(dictionaryPath, noJoin)).value;
      assert r.contents == h + ToWrite(p, sandwichPau).text;
      assert r.contents[..|h|] == h;
    }
  }

  /** With pauses requested every successful conversion is written in full. */
  lemma SandwichedAlwaysWritten(outputDir: string, textFile: string, text: string, dictionaryPath: Option<string>,
                                noJoin: bool, returnCleanedText: bool, g2p: Converter)
    requires text != [] && g2p(ConverterInput(text), Args(dictionaryPath, noJoin)).Success?
    ensures var p := g2p(ConverterInput(text), Args(dictionaryPath, noJoin)).value;
      var r := ConvertFile(outputDir, textFile, text, dictionaryPath, true, noJoin, returnCleanedText, g2p);
      r.Written? &&
      (p.Listed? ==> IsSuffix(Join(["pau"] + p.items + ["pau"], "|"), r.contents)) &&
      (p.Joined? ==> IsSuffix("pau " + p.text + " pau", r.contents))
  {
  }

  /**
   * Text made of disallowed characters only is not skipped by the batch
   * step, although the single-text function returns "" for it.
   */
  lemma DisallowedTextReachesConverter(outputDir: string, textFile: string, g2p: Converter)
    ensures Clean("!") == [] && ConverterInput("!") == []
    ensures G2p("!", None, true, false, false, g2p) == EmptyString
    ensures !ConvertFile(outputDir, textFile, "!", None, true, false, false, g2p).Skipped?
  {
    assert !Allowed('!');
  }

  /**
   * The per-file step as its message describes it: skip when nothing
   * survives cleaning, so that the converter never receives empty text.
   */
  function ConvertFileCorrected(outputDir: string, textFile: string, text: string, dictionaryPath: Option<string>,
                                sandwichPau: bool, noJoin: bool, returnCleanedText: bool, g2p: Converter): (r: FileOutcome)
    ensures r.Skipped? <==> Clean(text) == []
    ensures !r.Skipped? ==> ConverterInput(text) != []
  {
    if Clean(text) == [] then Skipped
    else
      ConverterInputShape(text);
      ConvertFile(outputDir, textFile, text, dictionaryPath, sandwichPau, noJoin, returnCleanedText, g2p)
  }

  /** The corrected step skips exactly the texts for which `g2p_openjtalk` returns "". */
  lemma CorrectedAgreesWithG2p(outputDir: string, textFile: string, text: string, dictionaryPath: Option<string>,
                               sandwichPau: bool, noJoin: bool, returnCleanedText: bool, g2p: Converter)
    ensures ConvertFileCorrected(outputDir, textFile, text, dictionaryPath, sandwichPau, noJoin, returnCleanedText, g2p).Skipped?
      <==> G2p(text, dictionaryPath, sandwichPau, noJoin, returnCleanedText, g2p) == EmptyString
  {
  }
}
