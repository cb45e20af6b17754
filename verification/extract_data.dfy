/**
 * Phoneme inventory handling (extract_data.py): the label rewrite applied
 * to `.lab` files, the collection of a sorted phoneme set from labels, CSV
 * rows or DiffSinger entries, its partition into vowels, liquids and
 * consonants with the dictionary text, and the patch of the first `SP` in
 * a transcription table. Files arrive already read: a `.lab` file as its
 * lines, a CSV file or a `.ds` file as its rows, each row a map from
 * column (or key) to text.
 */
module ExtractData {
  import opened Wrappers
  import opened Strings

  // ---------------------------------------------------------------------
  // process_lab_files: the label rewrite

  /** No `x` is directly followed by `y` in `s`. */
  predicate NoPair(s: string, x: char, y: char) {
    forall i :: 0 <= i < |s| - 1 ==> !(s[i] == x && s[i + 1] == y)
  }

  lemma NoPairNotContains(s: string, x: char, y: char)
    ensures NoPair(s, x, y) <==> !Contains(s, [x, y])
  {
    ContainsOccurs(s, [x, y]);
    if !NoPair(s, x, y) {
      var i :| 0 <= i < |s| - 1 && s[i] == x && s[i + 1] == y;
      assert s[i..i + 2] == [x, y];
      assert OccursAt(s, [x, y], i);
    }
    if Contains(s, [x, y]) {
      var i :| OccursAt(s, [x, y], i);
      assert s[i..i + 2][0] == s[i] && s[i..i + 2][1] == s[i + 1];
    }
  }

  lemma NoPairSuffix(s: string, k: nat, x: char, y: char)
    requires k <= |s| && NoPair(s, x, y)
    ensures NoPair(s[k..], x, y)
  {
    forall i | 0 <= i < |s[k..]| - 1 ensures !(s[k..][i] == x && s[k..][i + 1] == y) {
      assert s[k..][i] == s[k + i] && s[k..][i + 1] == s[k + i + 1];
    }
  }

  /** The first character of a replacement result, when the replacement is not empty. */
  lemma FirstAfterReplace(t: string, pat: string, rep: string)
    requires pat != [] && rep != []
    ensures ReplaceAll(t, pat, rep) == [] <==> t == []
    ensures t != [] && IsPrefix(pat, t) ==> ReplaceAll(t, pat, rep)[0] == rep[0]
    ensures t != [] && !IsPrefix(pat, t) ==> ReplaceAll(t, pat, rep)[0] == t[0]
  {
  }

  /**
   * Replacing with text free of `x` that does not start with `y` creates no
   * `x` followed by `y`; when the pattern is that very pair, none is left.
   */
  lemma {:induction false} NoPairAfterReplace(s: string, pat: string, rep: string, x: char, y: char)
    requires pat != [] && rep != [] && rep[0] != y && x !in rep
    requires pat == [x, y] || NoPair(s, x, y)
    ensures NoPair(ReplaceAll(s, pat, rep), x, y)
    decreases |s|
  {
    var r := ReplaceAll(s, pat, rep);
    if IsPrefix(pat, s) {
      var rest := s[|pat|..];
      if pat != [x, y] {
        NoPairSuffix(s, |pat|, x, y);
      }
      NoPairAfterReplace(rest, pat, rep, x, y);
      var tail := ReplaceAll(rest, pat, rep);
      assert r == rep + tail;
      forall i | 0 <= i < |r| - 1 ensures !(r[i] == x && r[i + 1] == y) {
        if i < |rep| {
          assert r[i] == rep[i] && rep[i] in rep;
        } else {
          assert r[i] == tail[i - |rep|] && r[i + 1] == tail[i + 1 - |rep|];
        }
      }
    } else if s != [] {
      var tail := ReplaceAll(s[1..], pat, rep);
      if pat != [x, y] {
        NoPairSuffix(s, 1, x, y);
      }
      NoPairAfterReplace(s[1..], pat, rep, x, y);
      FirstAfterReplace(s[1..], pat, rep);
      assert r == [s[0]] + tail;
      if |s| > 1 {
        if pat == [x, y] {
          assert s[..2] == [s[0], s[1]];
        }
        assert !(s[0] == x && s[1] == y);
      }
      forall i | 0 <= i < |r| - 1 ensures !(r[i] == x && r[i + 1] == y) {
        if i > 0 {
          assert r[i] == tail[i - 1] && r[i + 1] == tail[i];
        }
      }
    }
  }

  /** `file_data.replace("SP", "pau").replace("br", "AP")`. */
  function RewriteLabels(text: string): string {
    ReplaceAll(ReplaceAll(text, "SP", "pau"), "br", "AP")
  }

  /**
   * After the rewrite neither "SP" nor "br" occurs, so rewriting again
   * changes nothing.
   */
  lemma RewriteLabelsRemovesBoth(text: string)
    ensures !Contains(RewriteLabels(text), "SP")
    ensures !Contains(RewriteLabels(text), "br")
    ensures RewriteLabels(RewriteLabels(text)) == RewriteLabels(text)
  {
    assert "SP" == ['S', 'P'] && "br" == ['b', 'r'];
    var t := ReplaceAll(text, "SP", "pau");
    NoPairAfterReplace(text, "SP", "pau", 'S', 'P');
    NoPairAfterReplace(t, "br", "AP", 'S', 'P');
    NoPairAfterReplace(t, "br", "AP", 'b', 'r');
    var r := RewriteLabels(text);
    NoPairNotContains(r, 'S', 'P');
    NoPairNotContains(r, 'b', 'r');
    ReplaceAbsent(r, "SP", "pau");
    ReplaceAbsent(r, "br", "AP");
  }

  // ---------------------------------------------------------------------
  // collect_phonemes

  /** `is_excluded`: pauses, breaths and silences are not phonemes of the inventory. */
  predicate IsExcluded(p: string) {
    p in ["pau", "AP", "SP", "sil", "br"]
  }

  /** `line.strip().split()`, which is `line.split()` (`StripThenSplit`). */
  function Fields(line: string): seq<string> {
    Words(line)
  }

  /**
   * A lab line is readable when it is blank (its `strip()` is empty, see
   * `StripEmptyIffBlank`) or has a third field.
   */
  predicate LabLineOk(line: string) {
    Blank(line) || |Fields(line)| >= 3
  }

  predicate LabFileOk(lines: seq<string>) {
    forall j :: 0 <= j < |lines| ==> LabLineOk(lines[j])
  }

  predicate LabFilesOk(files: seq<seq<string>>) {
    forall i :: 0 <= i < |files| ==> LabFileOk(files[i])
  }

  /** `p` is the third field of the non-blank lab line `line`, and not excluded. */
  predicate LabLineGives(line: string, p: string) {
    !Blank(line) && |Fields(line)| >= 3 && Fields(line)[2] == p && !IsExcluded(p)
  }

  /** What one lab line adds: its third field, unless blank, short or excluded. */
  function LabLinePhonemes(line: string): set<string> {
    if Blank(line) || |Fields(line)| < 3 || IsExcluded(Fields(line)[2]) then {}
    else {Fields(line)[2]}
  }

  lemma LabLineMembers(line: string, p: string)
    ensures p in LabLinePhonemes(line) <==> LabLineGives(line, p)
  {
  }

  function LabFilePhonemes(lines: seq<string>): set<string>
    decreases |lines|
  {
    if lines == [] then {}
    else LabFilePhonemes(lines[..|lines| - 1]) + LabLinePhonemes(lines[|lines| - 1])
  }

  function LabPhonemes(files: seq<seq<string>>): set<string>
    decreases |files|
  {
    if files == [] then {}
    else LabPhonemes(files[..|files| - 1]) + LabFilePhonemes(files[|files| - 1])
  }

  /** A CSV row or a `.ds` entry: column (key) to text. */
  type Row = map<string, string>

  /** The tokens of `ws` that are not excluded. */
  function Kept(ws: seq<string>): set<string>
    decreases |ws|
  {
    if ws == [] then {}
    else Kept(ws[..|ws| - 1]) + (if IsExcluded(ws[|ws| - 1]) then {} else {ws[|ws| - 1]})
  }

  /** `p` is a token of the row's `ph_seq`, and not excluded. */
  predicate RowGives(row: Row, p: string) {
    "ph_seq" in row && p in Fields(row["ph_seq"]) && !IsExcluded(p)
  }

  /** What a row adds: the kept tokens of its `ph_seq`, or nothing without one. */
  function RowPhonemes(row: Row): (r: set<string>)
    ensures forall p :: p in r <==> RowGives(row, p)
  {
    if "ph_seq" in row then
      var ws := Fields(row["ph_seq"]);
      assert forall p :: p in Kept(ws) <==> p in ws && !IsExcluded(p) by {
        forall p ensures p in Kept(ws) <==> p in ws && !IsExcluded(p) {
          KeptMembers(ws, p);
        }
      }
      Kept(ws)
    else {}
  }

  function RowsPhonemes(rows: seq<Row>): set<string>
    decreases |rows|
  {
    if rows == [] then {}
    else RowsPhonemes(rows[..|rows| - 1]) + RowPhonemes(rows[|rows| - 1])
  }

  function TablePhonemes(tables: seq<seq<Row>>): set<string>
    decreases |tables|
  {
    if tables == [] then {}
    else TablePhonemes(tables[..|tables| - 1]) + RowsPhonemes(tables[|tables| - 1])
  }

  /** The set the loops of `collect_phonemes` build for a data type. */
  function Collected(dataType: string, labFiles: seq<seq<string>>, tables: seq<seq<Row>>): set<string> {
    if dataType == "lab_wav" then LabPhonemes(labFiles) else TablePhonemes(tables)
  }

  lemma {:induction false} KeptMembers(ws: seq<string>, p: string)
    ensures p in Kept(ws) <==> p in ws && !IsExcluded(p)
    decreases |ws|
  {
    if ws != [] {
      KeptMembers(ws[..|ws| - 1], p);
      assert ws == ws[..|ws| - 1] + [ws[|ws| - 1]];
    }
  }

  lemma {:induction false} LabFileMembers(lines: seq<string>, p: string)
    ensures p in LabFilePhonemes(lines) <==> exists j :: 0 <= j < |lines| && LabLineGives(lines[j], p)
    decreases |lines|
  {
    if lines != [] {
      var init := lines[..|lines| - 1];
      LabFileMembers(init, p);
      LabLineMembers(lines[|lines| - 1], p);
      if p in LabFilePhonemes(init) {
        var j :| 0 <= j < |init| && LabLineGives(init[j], p);
        assert lines[j] == init[j];
      }
      forall j | 0 <= j < |lines| - 1
        ensures lines[j] == init[j]
      {
      }
    }
  }

  lemma {:induction false} LabPhonemesByFile(files: seq<seq<string>>, p: string)
    ensures p in LabPhonemes(files) <==> exists i :: 0 <= i < |files| && p in LabFilePhonemes(files[i])
    decreases |files|
  {
    if files != [] {
      var init := files[..|files| - 1];
      LabPhonemesByFile(init, p);
      if p in LabPhonemes(init) {
        var i :| 0 <= i < |init| && p in LabFilePhonemes(init[i]);
        assert files[i] == init[i];
      }
      forall i | 0 <= i < |files| - 1
        ensures files[i] == init[i]
      {
      }
    }
  }

  /**
   * A phoneme is collected from lab files exactly when it is the third field
   * of some non-blank line and not excluded.
   */
  lemma LabMembers(files: seq<seq<string>>, p: string)
    ensures p in LabPhonemes(files) <==>
      exists i, j :: 0 <= i < |files| && 0 <= j < |files[i]| && LabLineGives(files[i][j], p)
  {
    LabPhonemesByFile(files, p);
    if p in LabPhonemes(files) {
      var i :| 0 <= i < |files| && p in LabFilePhonemes(files[i]);
      LabFileMembers(files[i], p);
    }
    forall i, j | 0 <= i < |files| && 0 <= j < |files[i]| && LabLineGives(files[i][j], p)
      ensures p in LabPhonemes(files)
    {
      LabFileMembers(files[i], p);
    }
  }

  lemma {:induction false} RowsMembers(rows: seq<Row>, p: string)
    ensures p in RowsPhonemes(rows) <==> exists j :: 0 <= j < |rows| && RowGives(rows[j], p)
    decreases |rows|
  {
    if rows != [] {
      var init := rows[..|rows| - 1];
      RowsMembers(init, p);
      if p in RowsPhonemes(init) {
        var j :| 0 <= j < |init| && RowGives(init[j], p);
        assert rows[j] == init[j];
      }
      forall j | 0 <= j < |rows| - 1
        ensures rows[j] == init[j]
      {
      }
    }
  }

  /**
   * A phoneme is collected from CSV rows or `.ds` entries exactly when it is
   * a token of some `ph_seq` and not excluded.
   */
  lemma TableMembers(tables: seq<seq<Row>>, p: string)
    ensures p in TablePhonemes(tables) <==>
      exists i, j :: 0 <= i < |tables| && 0 <= j < |tables[i]| && RowGives(tables[i][j], p)
  {
    TablesMembers(tables, p);
    forall i | 0 <= i < |tables|
      ensures p in RowsPhonemes(tables[i]) <==> exists j :: 0 <= j < |tables[i]| && RowGives(tables[i][j], p)
    {
      RowsMembers(tables[i], p);
    }
  }

  /** A phoneme is collected from the tables exactly when it is collected from one of them. */
  lemma {:induction false} TablesMembers(tables: seq<seq<Row>>, p: string)
    ensures p in TablePhonemes(tables) <==> exists i :: 0 <= i < |tables| && p in RowsPhonemes(tables[i])
    decreases |tables|
  {
    if tables != [] {
      var init := tables[..|tables| - 1];
      TablesMembers(init, p);
      if p in TablePhonemes(init) {
        var i :| 0 <= i < |init| && p in RowsPhonemes(init[i]);
        assert tables[i] == init[i];
      }
      forall i | 0 <= i < |tables| - 1
        ensures tables[i] == init[i]
      {
      }
    }
  }

  /** Nothing excluded is ever collected, and every collected phoneme is a non-empty word. */
  lemma CollectedClean(dataType: string, labFiles: seq<seq<string>>, tables: seq<seq<Row>>, p: string)
    requires p in Collected(dataType, labFiles, tables)
    ensures !IsExcluded(p) && p != [] && !Contains(p, " ")
  {
    if dataType == "lab_wav" {
      LabMembers(labFiles, p);
      var i, j :| 0 <= i < |labFiles| && 0 <= j < |labFiles[i]| && LabLineGives(labFiles[i][j], p);
    } else {
      TableMembers(tables, p);
      var i, j :| 0 <= i < |tables| && 0 <= j < |tables[i]| && RowGives(tables[i][j], p);
      var ws := Fields(tables[i][j]["ph_seq"]);
      var k :| 0 <= k < |ws| && ws[k] == p;
    }
  }

  /** The loop over the lines of one lab file, adding to `acc`. */
  method CollectFromLabFile(lines: seq<string>, acc: set<string>) returns (r: Result<set<string>, string>)
    ensures r.Failure? <==> !LabFileOk(lines)
    ensures r.Success? ==> r.value == acc + LabFilePhonemes(lines)
  {
    var phonemes := acc;
    var j := 0;
    while j < |lines|
      invariant 0 <= j <= |lines|
      invariant phonemes == acc + LabFilePhonemes(lines[..j])
      invariant forall b :: 0 <= b < j ==> LabLineOk(lines[b])
    {
      LabFileStep(lines, j);
      LabLineCases(lines[j]);
      // `line.strip()` is empty exactly for a blank line, and splitting the
      // stripped line gives the fields of the line itself
      if !Blank(lines[j]) {
        var fields := Words(lines[j]);
        if |fields| < 3 {
          return Failure("list index out of range");
        }
        var phoneme := fields[2];
        if !IsExcluded(phoneme) {
          phonemes := phonemes + {phoneme};
        }
      }
      j := j + 1;
    }
    assert lines[..j] == lines;
    r := Success(phonemes);
  }

  /** What one lab line contributes: nothing when blank, its third field unless excluded, and a short line raises. */
  lemma LabLineCases(line: string)
    ensures Blank(line) ==> LabLineOk(line) && LabLinePhonemes(line) == {}
    ensures !Blank(line) && |Words(line)| < 3 ==> !LabLineOk(line)
    ensures !Blank(line) && |Words(line)| >= 3 ==> LabLineOk(line)
    ensures !Blank(line) && |Words(line)| >= 3 ==>
      LabLinePhonemes(line) == if IsExcluded(Words(line)[2]) then {} else {Words(line)[2]}
  {
  }

  lemma LabFileStep(lines: seq<string>, j: nat)
    requires j < |lines|
    ensures LabFilePhonemes(lines[..j + 1]) == LabFilePhonemes(lines[..j]) + LabLinePhonemes(lines[j])
  {
    assert lines[..j + 1][..j] == lines[..j];
  }

  /** The lab loops: one phoneme per non-blank line; a short line raises. */
  method CollectFromLab(files: seq<seq<string>>) returns (r: Result<set<string>, string>)
    ensures r.Failure? <==> !LabFilesOk(files)
    ensures r.Success? ==> r.value == LabPhonemes(files)
  {
    var phonemes: set<string> := {};
    var i := 0;
    while i < |files|
      invariant 0 <= i <= |files|
      invariant phonemes == LabPhonemes(files[..i])
      invariant forall a :: 0 <= a < i ==> LabFileOk(files[a])
    {
      var res := CollectFromLabFile(files[i], phonemes);
      if res.Failure? {
        assert !LabFileOk(files[i]);
        return Failure(res.error);
      }
      phonemes := res.value;
      assert files[..i + 1][..i] == files[..i];
      i := i + 1;
    }
    assert files[..i] == files;
    r := Success(phonemes);
  }

  /** The CSV and `.ds` loops: every kept token of every `ph_seq`. */
  method CollectFromTables(tables: seq<seq<Row>>) returns (phonemes: set<string>)
    ensures phonemes == TablePhonemes(tables)
  {
    phonemes := {};
    var i := 0;
    while i < |tables|
      invariant 0 <= i <= |tables|
      invariant phonemes == TablePhonemes(tables[..i])
    {
      phonemes := CollectFromRows(tables[i], phonemes);
      assert tables[..i + 1][..i] == tables[..i];
      i := i + 1;
    }
    assert tables[..i] == tables;
  }

  /** The loop over the rows of one table, adding to what was collected so far. */
  method CollectFromRows(rows: seq<Row>, acc: set<string>) returns (phonemes: set<string>)
    ensures phonemes == acc + RowsPhonemes(rows)
  {
    phonemes := acc;
    var j := 0;
    while j < |rows|
      invariant 0 <= j <= |rows|
      invariant phonemes == acc + RowsPhonemes(rows[..j])
    {
      var row := rows[j];
      if "ph_seq" in row {
        phonemes := CollectTokens(Words(row["ph_seq"]), phonemes);
      }
      assert rows[..j + 1][..j] == rows[..j];
      j := j + 1;
    }
    assert rows[..j] == rows;
  }

  /** The loop over the tokens of one `ph_seq`: the excluded ones are skipped. */
  method CollectTokens(ws: seq<string>, acc: set<string>) returns (phonemes: set<string>)
    ensures phonemes == acc + Kept(ws)
  {
    phonemes := acc;
    var k := 0;
    while k < |ws|
      invariant 0 <= k <= |ws|
      invariant phonemes == acc + Kept(ws[..k])
    {
      if !IsExcluded(ws[k]) {
        phonemes := phonemes + {ws[k]};
      }
      assert ws[..k + 1][..k] == ws[..k];
      k := k + 1;
    }
    assert ws[..k] == ws;
  }

  /** The least element of a non-empty set of strings, in code-point order. */
  method Least(s: set<string>) returns (m: string)
    requires s != {}
    ensures m in s && forall x :: x in s ==> LessEq(m, x)
  {
    m :| m in s;
    var others := s - {m};
    while others != {}
      invariant others <= s && m in s
      invariant forall x :: x in s && x !in others ==> LessEq(m, x)
      decreases others
    {
      var y :| y in others;
      if Less(y, m) {
        forall x | x in s && x !in others && x != y ensures Less(y, x) {
          if x != m {
            LessTransitive(y, m, x);
          }
        }
        m := y;
      } else {
        LessTotal(m, y);
      }
      others := others - {y};
    }
  }

  /** `sorted(phonemes)`: the elements of the set in strictly increasing order. */
  method SortSet(s: set<string>) returns (r: seq<string>)
    ensures StrictlySorted(r)
    ensures forall x :: x in r <==> x in s
  {
    r := [];
    var rest := s;
    while rest != {}
      invariant rest <= s
      invariant StrictlySorted(r)
      invariant forall x :: x in s <==> x in r || x in rest
      invariant forall i, x :: 0 <= i < |r| && x in rest ==> Less(r[i], x)
      decreases rest
    {
      var m := Least(rest);
      forall x | x in rest - {m} ensures Less(m, x) {
        LessIrreflexive(m);
      }
      r := r + [m];
      rest := rest - {m};
    }
  }

  /**
   * `collect_phonemes`: the phonemes of the chosen input kind, strictly
   * sorted, so free of duplicates. Lab lines too short to hold a phoneme
   * raise, and nothing is returned.
   */
  method CollectPhonemes(dataType: string, labFiles: seq<seq<string>>, tables: seq<seq<Row>>)
    returns (r: Result<seq<string>, string>)
    ensures r.Failure? <==> dataType == "lab_wav" && !LabFilesOk(labFiles)
    ensures r.Success? ==> StrictlySorted(r.value)
    ensures r.Success? ==> forall p :: p in r.value <==> p in Collected(dataType, labFiles, tables)
  {
    var phonemes: set<string>;
    if dataType == "lab_wav" {
      var res := CollectFromLab(labFiles);
      if res.Failure? {
        return Failure(res.error);
      }
      phonemes := res.value;
    } else {
      phonemes := CollectFromTables(tables);
    }
    var sorted := SortSet(phonemes);
    r := Success(sorted);
  }

  // ---------------------------------------------------------------------
  // generate_phoneme_files

  const VowelTypes: set<string> := {"a", "i", "u", "e", "o", "N", "M", "NG"}
  const LiquidTypes: set<string> := {"y", "w", "l", "r"}

  datatype Category = Vowel | Liquid | Consonant

  /** Decided by the first character alone; the vowel table is consulted first. */
  function CategoryOf(p: string): Category
    requires p != []
  {
    if [p[0]] in VowelTypes then Vowel
    else if [p[0]] in LiquidTypes then Liquid
    else Consonant
  }

  /**
   * Only one-character entries of the tables can match, so "NG" never does:
   * vowels are exactly the phonemes starting with a, i, u, e, o, N or M, and
   * liquids those starting with y, w, l or r.
   */
  lemma CategoryByFirstChar(p: string)
    requires p != []
    ensures CategoryOf(p) == Vowel <==> p[0] in "aiueoNM"
    ensures CategoryOf(p) == Liquid <==> p[0] in "ywlr"
  {
    assert [p[0]] != "NG";
  }

  predicate NoneEmpty(ps: seq<string>) {
    forall k :: 0 <= k < |ps| ==> ps[k] != []
  }

  /** The phonemes of one category, in input order. */
  function Select(ps: seq<string>, c: Category): (r: seq<string>)
    requires NoneEmpty(ps)
    ensures forall k :: 0 <= k < |r| ==> r[k] != [] && CategoryOf(r[k]) == c
    ensures multiset(r) <= multiset(ps)
    decreases |ps|
  {
    if ps == [] then []
    else
      var init := Select(ps[..|ps| - 1], c);
      assert ps == ps[..|ps| - 1] + [ps[|ps| - 1]];
      if CategoryOf(ps[|ps| - 1]) == c then init + [ps[|ps| - 1]] else init
  }

  /** Every phoneme lands in exactly one of the three lists. */
  lemma {:induction false} SelectPartitions(ps: seq<string>)
    requires NoneEmpty(ps)
    ensures multiset(Select(ps, Vowel)) + multiset(Select(ps, Liquid)) + multiset(Select(ps, Consonant)) == multiset(ps)
    decreases |ps|
  {
    if ps != [] {
      var init := ps[..|ps| - 1];
      var x := ps[|ps| - 1];
      SelectPartitions(init);
      SelectLast(ps, Vowel);
      SelectLast(ps, Liquid);
      SelectLast(ps, Consonant);
      MultisetOfInitAndLast(ps);
      OneMoreInOnePart(multiset(Select(init, Vowel)), multiset(Select(init, Liquid)),
                       multiset(Select(init, Consonant)), x, CategoryOf(x));
    }
  }

  lemma MultisetOfInitAndLast(ps: seq<string>)
    requires ps != []
    ensures multiset(ps) == multiset(ps[..|ps| - 1]) + multiset{ps[|ps| - 1]}
  {
    assert ps == ps[..|ps| - 1] + [ps[|ps| - 1]];
  }

  /** Adding an element to the one part its category names adds it to the sum of the parts. */
  lemma OneMoreInOnePart(v: multiset<string>, l: multiset<string>, c: multiset<string>, x: string, cat: Category)
    ensures (v + if cat == Vowel then multiset{x} else multiset{})
          + (l + if cat == Liquid then multiset{x} else multiset{})
          + (c + if cat == Consonant then multiset{x} else multiset{})
         == v + l + c + multiset{x}
  {
  }

  /** The last phoneme joins exactly the list of its own category. */
  lemma SelectLast(ps: seq<string>, c: Category)
    requires NoneEmpty(ps) && ps != []
    ensures multiset(Select(ps, c)) == multiset(Select(ps[..|ps| - 1], c))
      + if CategoryOf(ps[|ps| - 1]) == c then multiset{ps[|ps| - 1]} else multiset{}
  {
  }

  /** `f"{p}\t{p}\n"` for every phoneme, in order. */
  function DictText(ps: seq<string>): string
    decreases |ps|
  {
    if ps == [] then "" else ps[0] + "\t" + ps[0] + "\n" + DictText(ps[1..])
  }

  /** The dictionary text has one line per phoneme, mapping it to itself, and ends with a newline. */
  lemma {:induction false} DictTextLines(ps: seq<string>)
    requires forall k :: 0 <= k < |ps| ==> '\n' !in ps[k]
    ensures |Split(DictText(ps), "\n")| == |ps| + 1
    ensures forall k :: 0 <= k < |ps| ==> Split(DictText(ps), "\n")[k] == ps[k] + "\t" + ps[k]
    ensures Split(DictText(ps), "\n")[|ps|] == ""
    decreases |ps|
  {
    if ps == [] {
      assert Split("", "\n") == [""];
    } else {
      var line := ps[0] + "\t" + ps[0];
      assert '\n' !in line;
      assert DictText(ps) == line + ['\n'] + DictText(ps[1..]);
      SplitAfterPiece(line, '\n', DictText(ps[1..]));
      DictTextLines(ps[1..]);
    }
  }

  /** What `generate_phoneme_files` writes and returns. */
  datatype PhonemeFiles = PhonemeFiles(
    vowels: seq<string>, liquids: seq<string>, consonants: seq<string>,
    dictionary: string, vowelsText: string, liquidsText: string, consonantsText: string)

  /**
   * `generate_phoneme_files`: the three category lists in input order, the
   * dictionary text, and each list joined by single spaces. An empty
   * phoneme raises before anything is written.
   */
  method GeneratePhonemeFiles(phonemes: seq<string>) returns (r: Result<PhonemeFiles, string>)
    ensures r.Failure? <==> !NoneEmpty(phonemes)
    ensures r.Success? ==> (NoneEmpty(phonemes)
      && r.value.vowels == Select(phonemes, Vowel)
      && r.value.liquids == Select(phonemes, Liquid)
      && r.value.consonants == Select(phonemes, Consonant)
      && r.value.dictionary == DictText(phonemes)
      && r.value.vowelsText == Join(r.value.vowels, " ")
      && r.value.liquidsText == Join(r.value.liquids, " ")
      && r.value.consonantsText == Join(r.value.consonants, " "))
  {
    var vowels, liquids, consonants := [], [], [];
    var i := 0;
    while i < |phonemes|
      invariant 0 <= i <= |phonemes|
      invariant NoneEmpty(phonemes[..i])
      invariant vowels == Select(phonemes[..i], Vowel)
      invariant liquids == Select(phonemes[..i], Liquid)
      invariant consonants == Select(phonemes[..i], Consonant)
    {
      var p := phonemes[i];
      if p == [] {
        return Failure("string index out of range");
      }
      assert NoneEmpty(phonemes[..i + 1]) by {
        assert phonemes[..i + 1] == phonemes[..i] + [p];
      }
      var cat := CategoryOf(p);
      ClassifyStep(phonemes, i, vowels, liquids, consonants);
      if cat == Vowel {
        vowels := vowels + [p];
      } else if cat == Liquid {
        liquids := liquids + [p];
      } else {
        consonants := consonants + [p];
      }
      i := i + 1;
    }
    assert phonemes[..i] == phonemes;
    r := Success(PhonemeFiles(vowels, liquids, consonants, DictText(phonemes),
      Join(vowels, " "), Join(liquids, " "), Join(consonants, " ")));
  }

  /** One more phoneme joins the list of its own category and leaves the other lists alone. */
  lemma SelectStep(ps: seq<string>, i: nat, c: Category)
    requires i < |ps| && NoneEmpty(ps[..i + 1])
    ensures NoneEmpty(ps[..i])
    ensures Select(ps[..i + 1], c) == Select(ps[..i], c) + if CategoryOf(ps[i]) == c then [ps[i]] else []
  {
    var q := ps[..i + 1];
    assert q[..|q| - 1] == ps[..i];
  }

  /** The three lists after one more phoneme: it joins the list of its own category. */
  lemma ClassifyStep(ps: seq<string>, i: nat, v: seq<string>, l: seq<string>, c: seq<string>)
    requires i < |ps| && NoneEmpty(ps[..i + 1])
    requires v == Select(ps[..i], Vowel) && l == Select(ps[..i], Liquid) && c == Select(ps[..i], Consonant)
    ensures CategoryOf(ps[i]) == Vowel ==>
      v + [ps[i]] == Select(ps[..i + 1], Vowel) && l == Select(ps[..i + 1], Liquid) && c == Select(ps[..i + 1], Consonant)
    ensures CategoryOf(ps[i]) == Liquid ==>
      v == Select(ps[..i + 1], Vowel) && l + [ps[i]] == Select(ps[..i + 1], Liquid) && c == Select(ps[..i + 1], Consonant)
    ensures CategoryOf(ps[i]) == Consonant ==>
      v == Select(ps[..i + 1], Vowel) && l == Select(ps[..i + 1], Liquid) && c + [ps[i]] == Select(ps[..i + 1], Consonant)
  {
    SelectStep(ps, i, Vowel);
    SelectStep(ps, i, Liquid);
    SelectStep(ps, i, Consonant);
  }

  /** A component file lists its phonemes back when read with `split(" ")`. */
  lemma ComponentFileRoundTrip(ps: seq<string>)
    requires |ps| >= 1
    requires forall k :: 0 <= k < |ps| ==> ' ' !in ps[k]
    ensures Split(Join(ps, " "), " ") == ps
  {
    SplitJoin(ps, ' ');
  }

  // ---------------------------------------------------------------------
  // fix_initial_sp

  /** `xs.index(x)`, or -1 when `x` is missing. */
  function IndexOf(xs: seq<string>, x: string): (k: int)
    ensures -1 <= k < |xs|
    ensures k == -1 <==> x !in xs
    ensures k >= 0 ==> xs[k] == x && forall j :: 0 <= j < k ==> xs[j] != x
    decreases |xs|
  {
    if xs == [] then -1
    else if xs[0] == x then 0
    else
      var k := IndexOf(xs[1..], x);
      if k == -1 then -1 else k + 1
  }

  /** The column whose first-row cell is patched, when the guards let it through. */
  predicate Patchable(data: seq<seq<string>>) {
    |data| > 1 && "ph_seq" in data[0] && |data[1]| > IndexOf(data[0], "ph_seq")
  }

  /** The table `fix_initial_sp` writes back. */
  function FixedTable(data: seq<seq<string>>): (r: seq<seq<string>>)
    ensures |r| == |data|
  {
    if Patchable(data) then
      var k := IndexOf(data[0], "ph_seq");
      data[1 := data[1][k := ReplaceFirst(data[1][k], "SP", "AP")]]
    else data
  }

  /**
   * Only the `ph_seq` cell of the first data row changes, and there only the
   * first "SP" becomes "AP"; a table the guards reject is left as it is.
   */
  lemma FixedTableChangesOneCell(data: seq<seq<string>>)
    ensures !Patchable(data) ==> FixedTable(data) == data
    ensures forall i :: 0 <= i < |data| && i != 1 ==> FixedTable(data)[i] == data[i]
    ensures Patchable(data) ==>
      var k := IndexOf(data[0], "ph_seq");
      var cell := data[1][k];
      var r := FixedTable(data);
      |r[1]| == |data[1]|
      && (forall j :: 0 <= j < |data[1]| && j != k ==> r[1][j] == data[1][j])
      && (!Contains(cell, "SP") ==> r == data)
      && (Contains(cell, "SP") ==> r[1][k] == cell[..Find(cell, "SP")] + "AP" + cell[Find(cell, "SP") + 2..])
  {
    if Patchable(data) {
      var k := IndexOf(data[0], "ph_seq");
      if !Contains(data[1][k], "SP") {
        assert data[1][k := data[1][k]] == data[1];
      }
    }
  }

  /** `fix_initial_sp` on one table, updating the cell in place. */
  method FixInitialSp(data: array<seq<string>>)
    modifies data
    ensures data[..] == FixedTable(old(data[..]))
  {
    if data.Length > 1 && "ph_seq" in data[0] {
      var k := IndexOf(data[0], "ph_seq");
      if |data[1]| > k {
        data[1] := data[1][k := ReplaceFirst(data[1][k], "SP", "AP")];
      }
    }
  }
}
