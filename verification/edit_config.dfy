/**
 * `edit_config.py`: prepares a DiffSinger training run. It derives feature
 * flags from the command-line options, finds the speakers and picks test
 * prefixes from the data directory, edits the model's YAML configuration in
 * place and points `utils/hparams.py` at the save directory.
 *
 * The file system is a pair of parameters: `walk` gives the `os.walk`
 * listing of a directory, and `shuffle` stands for the n-th call of
 * `random.shuffle`. Lemmas that need a shuffle to be a permutation say so.
 */
module EditConfig {
  import opened Wrappers
  import opened Strings
  import opened Paths
  import opened Numerals

  /* ---------------------------------------------------------------------
   * Feature flags derived from the options
   * ------------------------------------------------------------------- */

  /** Data augmentation is forced on. */
  const DataAug := true
  /** Duration prediction is always trained. */
  const DurationTraining := true
  /** The binarizer never prefers `.ds` files. */
  const PreferDs := false

  datatype ShallowFlags = ShallowFlags(useShallow: bool, gtShallow: bool)

  const ShallowChoices: seq<string> := ["false", "true_aux_val", "true_gt_val"]

  /**
   * `--use-shallow-diffusion`: `false` turns shallow diffusion off,
   * `true_aux_val` turns it on without ground-truth validation, and every
   * other value turns both on.
   */
  function ShallowDiffusion(mode: string): (r: ShallowFlags)
    ensures r.gtShallow ==> r.useShallow
    ensures r.useShallow <==> mode != "false"
    ensures r.gtShallow <==> mode != "false" && mode != "true_aux_val"
  {
    if mode == "false" then ShallowFlags(false, false)
    else if mode == "true_aux_val" then ShallowFlags(true, false)
    else ShallowFlags(true, true)
  }

  /** Every consistent pair of shallow-diffusion flags is reached by exactly one choice. */
  lemma ShallowChoicesCover(f: ShallowFlags)
    requires f.gtShallow ==> f.useShallow
    ensures exists m :: m in ShallowChoices && ShallowDiffusion(m) == f
    ensures forall m1, m2 ::
              (m1 in ShallowChoices && m2 in ShallowChoices && ShallowDiffusion(m1) == f && ShallowDiffusion(m2) == f)
              ==> m1 == m2
  {
    if !f.useShallow {
      assert ShallowDiffusion(ShallowChoices[0]) == f;
    } else if !f.gtShallow {
      assert ShallowDiffusion(ShallowChoices[1]) == f;
    } else {
      assert ShallowDiffusion(ShallowChoices[2]) == f;
    }
  }

  datatype FinetuneSettings = FinetuneSettings(pretrain: bool, checkpoint: Option<string>, strictShapes: bool)

  const PretrainDir := "pretrain_models/"
  const PretrainSuffix := "_pretrain.ckpt"

  /** The bundled base model of a model type, `pretrain_models/{model_type}_pretrain.ckpt`. */
  function PretrainCheckpoint(modelType: string): string {
    PretrainDir + modelType + PretrainSuffix
  }

  /** The bundled base model lies in `pretrain_models` and is named after the model type. */
  lemma PretrainCheckpointName(modelType: string)
    ensures IsPrefix(PretrainDir, PretrainCheckpoint(modelType)) && IsSuffix(PretrainSuffix, PretrainCheckpoint(modelType))
    ensures '/' !in modelType ==> Basename(PretrainCheckpoint(modelType)) == modelType + PretrainSuffix
  {
    var p := PretrainCheckpoint(modelType);
    assert p[|PretrainDir|..] == modelType + PretrainSuffix;
    assert '/' !in PretrainSuffix;
    if '/' !in modelType {
      LastComponent(p, modelType + PretrainSuffix);
    }
  }

  /**
   * `--enable-finetuning`: when on, the checkpoint is the given base model,
   * or the bundled one for the model type, and shapes need not match
   * strictly; when off there is no checkpoint and shapes must match.
   */
  function Finetune(enabled: bool, baseModelPath: Option<string>, modelType: string): (r: FinetuneSettings)
    ensures r.pretrain == enabled && r.strictShapes == !enabled
    ensures r.checkpoint.Some? <==> enabled
    ensures enabled && baseModelPath.Some? ==> r.checkpoint == baseModelPath
    ensures enabled && baseModelPath.None? ==> r.checkpoint == Some(PretrainCheckpoint(modelType))
  {
    if enabled then
      FinetuneSettings(true, if baseModelPath.Some? then baseModelPath else Some(PretrainCheckpoint(modelType)), false)
    else FinetuneSettings(false, None, true)
  }

  datatype VarianceFlags = VarianceFlags(tension: bool, energy: bool, breathiness: bool, voicing: bool)

  const ParamChoices: seq<string> := ["energy_breathiness", "tension", "voicing", "none"]

  /**
   * `--selected-param`: energy and breathiness are always chosen together
   * and bring voicing with them; tension excludes the other three.
   */
  function SelectedParam(choice: string): (r: VarianceFlags)
    ensures r.energy == r.breathiness
    ensures r.energy <==> choice == "energy_breathiness"
    ensures r.tension <==> choice == "tension"
    ensures r.voicing <==> choice == "energy_breathiness" || choice == "voicing"
    ensures r.tension ==> !r.energy && !r.voicing
  {
    if choice == "energy_breathiness" then VarianceFlags(false, true, true, true)
    else if choice == "tension" then VarianceFlags(true, false, false, false)
    else if choice == "voicing" then VarianceFlags(false, false, false, true)
    else VarianceFlags(false, false, false, false)
  }

  /** The four choices of `--selected-param` give four different flag sets. */
  lemma ParamChoicesDistinct(i: nat, j: nat)
    requires i < j < |ParamChoices|
    ensures SelectedParam(ParamChoices[i]) != SelectedParam(ParamChoices[j])
  {
  }

  datatype PitchFlags = PitchFlags(pitch: bool, melodyEncoder: bool, glideEmbed: bool)

  const PitchChoices: seq<string> := ["false", "standard", "melody_encoder"]

  /**
   * `--pitch-training`: `false` trains no pitch, `standard` trains pitch
   * alone, and every other value adds the melody encoder. The glide
   * embedding is never used.
   */
  function PitchTraining(mode: string): (r: PitchFlags)
    ensures !r.glideEmbed
    ensures r.melodyEncoder ==> r.pitch
    ensures r.pitch <==> mode != "false"
    ensures r.melodyEncoder <==> mode != "false" && mode != "standard"
  {
    if mode == "false" then PitchFlags(false, false, false)
    else if mode == "standard" then PitchFlags(true, false, false)
    else PitchFlags(true, true, false)
  }

  /** Every consistent pair of pitch flags is reached by exactly one choice. */
  lemma PitchChoicesCover(f: PitchFlags)
    requires !f.glideEmbed && (f.melodyEncoder ==> f.pitch)
    ensures exists m :: m in PitchChoices && PitchTraining(m) == f
    ensures forall m1, m2 ::
              (m1 in PitchChoices && m2 in PitchChoices && PitchTraining(m1) == f && PitchTraining(m2) == f)
              ==> m1 == m2
  {
    if !f.pitch {
      assert PitchTraining(PitchChoices[0]) == f;
    } else if !f.melodyEncoder {
      assert PitchTraining(PitchChoices[1]) == f;
    } else {
      assert PitchTraining(PitchChoices[2]) == f;
    }
  }

  /* ---------------------------------------------------------------------
   * Speakers and test prefixes
   * ------------------------------------------------------------------- */

  /** An entry of `os.listdir(data_dir)` and whether it is a directory. */
  datatype DirEntry = DirEntry(name: string, isDir: bool)

  /** `get_speaker_info`: the speakers are the sub-directories, in listing order. */
  function SpeakerNames(entries: seq<DirEntry>): (names: seq<string>)
    ensures |names| <= |entries|
    ensures forall n :: n in names <==> exists e :: e in entries && e.isDir && e.name == n
    decreases |entries|
  {
    if entries == [] then []
    else
      var rest := SpeakerNames(entries[..|entries| - 1]);
      var last := entries[|entries| - 1];
      assert forall e :: e in entries <==> e in entries[..|entries| - 1] || e == last;
      if last.isDir then rest + [last.name] else rest
  }

  /** `get_speaker_info`: each speaker's raw-data folder, `os.path.join(data_dir, name)`. */
  function RawDirs(dataDir: string, names: seq<string>): (dirs: seq<string>)
    ensures |dirs| == |names|
    ensures forall k :: 0 <= k < |names| && '/' !in names[k] ==> Basename(dirs[k]) == names[k]
  {
    seq(|names|, k requires 0 <= k < |names| => PathJoin(dataDir, names[k]))
  }

  /** One step of `os.walk`: a directory and the names of the files directly in it. */
  datatype WalkStep = WalkStep(root: string, files: seq<string>)

  const WavExt := ".wav"
  const DsExt := ".ds"

  /** Single-speaker runs draw from `.wav` and `.ds` files, multi-speaker runs from `.ds` files only. */
  predicate Wanted(name: string, dsOnly: bool) {
    IsSuffix(DsExt, name) || (!dsOnly && IsSuffix(WavExt, name))
  }

  /** The wanted files of one walk step, joined to its directory, in listing order. */
  function WantedIn(root: string, names: seq<string>, dsOnly: bool): seq<string>
    decreases |names|
  {
    if names == [] then []
    else
      var last := names[|names| - 1];
      WantedIn(root, names[..|names| - 1], dsOnly) + (if Wanted(last, dsOnly) then [PathJoin(root, last)] else [])
  }

  /** The wanted files of a whole walk, in walk order. */
  function WantedFiles(walk: seq<WalkStep>, dsOnly: bool): seq<string>
    decreases |walk|
  {
    if walk == [] then []
    else WantedFiles(walk[..|walk| - 1], dsOnly) + WantedIn(walk[|walk| - 1].root, walk[|walk| - 1].files, dsOnly)
  }

  /** The nested loops of `get_test_files` that gather candidate files. */
  method CollectWanted(walk: seq<WalkStep>, dsOnly: bool) returns (all: seq<string>)
    ensures all == WantedFiles(walk, dsOnly)
  {
    all := [];
    for i := 0 to |walk|
      invariant all == WantedFiles(walk[..i], dsOnly)
    {
      all := CollectWantedIn(walk[i].root, walk[i].files, dsOnly, all);
      assert walk[..i + 1][..i] == walk[..i];
    }
    assert walk[..|walk|] == walk;
  }

  /** The inner loop, over the files of one walk step, appending to what was gathered so far. */
  method CollectWantedIn(root: string, names: seq<string>, dsOnly: bool, acc: seq<string>) returns (all: seq<string>)
    ensures all == acc + WantedIn(root, names, dsOnly)
  {
    all := acc;
    for j := 0 to |names|
      invariant all == acc + WantedIn(root, names[..j], dsOnly)
    {
      WantedInStep(root, names, j, dsOnly);
      if Wanted(names[j], dsOnly) {
        all := all + [PathJoin(root, names[j])];
      }
    }
    assert names[..|names|] == names;
  }

  lemma WantedInStep(root: string, names: seq<string>, j: nat, dsOnly: bool)
    requires j < |names|
    ensures WantedIn(root, names[..j + 1], dsOnly)
         == WantedIn(root, names[..j], dsOnly) + if Wanted(names[j], dsOnly) then [PathJoin(root, names[j])] else []
  {
    assert names[..j + 1][..j] == names[..j];
  }

  /** Every gathered path ends in a wanted file name, when file names hold no `/`. */
  lemma {:induction false} WantedFilesSound(walk: seq<WalkStep>, dsOnly: bool)
    requires forall i, j :: 0 <= i < |walk| && 0 <= j < |walk[i].files| ==> '/' !in walk[i].files[j]
    ensures forall p :: p in WantedFiles(walk, dsOnly) ==> Wanted(Basename(p), dsOnly)
    decreases |walk|
  {
    if walk != [] {
      var init := walk[..|walk| - 1];
      WantedFilesSound(init, dsOnly);
      WantedInSound(walk[|walk| - 1].root, walk[|walk| - 1].files, dsOnly);
    }
  }

  lemma {:induction false} WantedInSound(root: string, names: seq<string>, dsOnly: bool)
    requires forall j :: 0 <= j < |names| ==> '/' !in names[j]
    ensures forall p :: p in WantedIn(root, names, dsOnly) ==> Wanted(Basename(p), dsOnly)
    decreases |names|
  {
    if names != [] {
      WantedInSound(root, names[..|names| - 1], dsOnly);
    }
  }

  /** Every wanted file of the walk is gathered. */
  lemma {:induction false} WantedFilesComplete(walk: seq<WalkStep>, dsOnly: bool, i: nat, j: nat)
    requires i < |walk| && j < |walk[i].files| && Wanted(walk[i].files[j], dsOnly)
    ensures PathJoin(walk[i].root, walk[i].files[j]) in WantedFiles(walk, dsOnly)
    decreases |walk|
  {
    if i < |walk| - 1 {
      WantedFilesComplete(walk[..|walk| - 1], dsOnly, i, j);
    } else {
      WantedInComplete(walk[i].root, walk[i].files, dsOnly, j);
    }
  }

  lemma {:induction false} WantedInComplete(root: string, names: seq<string>, dsOnly: bool, j: nat)
    requires j < |names| && Wanted(names[j], dsOnly)
    ensures PathJoin(root, names[j]) in WantedIn(root, names, dsOnly)
    decreases |names|
  {
    if j < |names| - 1 {
      WantedInComplete(root, names[..|names| - 1], dsOnly, j);
    }
  }

  /** `os.path.splitext(os.path.basename(f))[0]` of each path. */
  function Stems(paths: seq<string>): seq<string> {
    seq(|paths|, k requires 0 <= k < |paths| => Stem(paths[k]))
  }

  /**
   * `folder_to_id`: each name mapped to its position; a later folder with the
   * same name overwrites an earlier one, as in a dict comprehension.
   */
  function PositionMap(names: seq<string>): map<string, nat>
    decreases |names|
  {
    if names == [] then map[]
    else PositionMap(names[..|names| - 1])[names[|names| - 1] := |names| - 1]
  }

  /** Every name is mapped, to the position of its last occurrence. */
  lemma {:induction false} PositionMapSpec(names: seq<string>)
    ensures forall k :: 0 <= k < |names| ==> names[k] in PositionMap(names)
    ensures forall name :: name in PositionMap(names) ==>
      var p := PositionMap(names)[name];
      p < |names| && names[p] == name && forall k :: p < k < |names| ==> names[k] != name
    decreases |names|
  {
    if names != [] {
      var n := |names| - 1;
      PositionMapSpec(names[..n]);
      assert forall k :: 0 <= k < n ==> names[..n][k] == names[k];
    }
  }

  /** The base names of the speaker folders, the keys of `folder_to_id`. */
  function FolderNames(rawDirs: seq<string>): (names: seq<string>)
    ensures |names| == |rawDirs|
  {
    seq(|rawDirs|, k requires 0 <= k < |rawDirs| => Basename(rawDirs[k]))
  }

  /** `folder_to_id.get(folder_name, -1)` for the i-th folder: always found, at a folder of that name. */
  function FolderId(rawDirs: seq<string>, i: nat): (id: int)
    requires i < |rawDirs|
    ensures i <= id < |rawDirs| && Basename(rawDirs[id]) == Basename(rawDirs[i])
  {
    var names := FolderNames(rawDirs);
    var ids := PositionMap(names);
    PositionMapSpec(names);
    if names[i] in ids then ids[names[i]] as int else -1
  }

  /** With distinct folder names each folder's id is its own position. */
  lemma FolderIdDistinct(rawDirs: seq<string>, i: nat)
    requires i < |rawDirs|
    requires forall a, b :: 0 <= a < b < |rawDirs| ==> Basename(rawDirs[a]) != Basename(rawDirs[b])
    ensures FolderId(rawDirs, i) == i
  {
    var k := FolderId(rawDirs, i);
    assert Basename(rawDirs[k]) == Basename(rawDirs[i]);
  }

  /** A multi-speaker test prefix, `"{folder_id}:{stem}"`. */
  function SpeakerPrefix(id: int, path: string): string {
    IntToString(id) + ":" + Stem(path)
  }

  /** The speaker id stands before the first colon of a prefix and reads back as the id. */
  lemma SpeakerPrefixRoundTrip(id: nat, path: string)
    ensures var p := SpeakerPrefix(id, path);
      FindChar(p, ':') == |NatToString(id)| && AllDigits(p[..FindChar(p, ':')])
      && ParseNat(p[..FindChar(p, ':')]) == id
  {
    var d := NatToString(id);
    var p := SpeakerPrefix(id, path);
    assert p == d + ":" + Stem(path);
    assert p[..|d|] == d;
    assert p[|d|] == ':';
    assert ':' !in d by {
      forall j | 0 <= j < |d| ensures d[j] != ':' {
        assert IsDigit(d[j]);
      }
    }
    FindCharAt(p, ':', |d|);
    ParseNatToString(id);
  }

  /** The at most one test prefix a speaker folder contributes: the first of its shuffled `.ds` files. */
  function FolderPrefix(id: int, shuffled: seq<string>): (r: seq<string>)
    ensures |r| <= 1 && (|r| == 1 <==> shuffled != [])
  {
    if shuffled == [] then [] else [SpeakerPrefix(id, shuffled[0])]
  }

  /** The prefixes of the first `n` speaker folders; the i-th folder's shuffle is call `i`. */
  function FolderPrefixes(rawDirs: seq<string>, walk: string -> seq<WalkStep>,
                          shuffle: (nat, seq<string>) -> seq<string>, n: nat): (r: seq<string>)
    requires n <= |rawDirs|
    ensures |r| <= n
  {
    if n == 0 then []
    else FolderPrefixes(rawDirs, walk, shuffle, n - 1)
         + FolderPrefix(FolderId(rawDirs, n - 1), shuffle(n - 1, WantedFiles(walk(rawDirs[n - 1]), true)))
  }

  datatype TestSetup = TestSetup(singerType: string, useSpkId: bool, testPrefixes: seq<string>)

  const SingleSpeaker := "SINGLE-SPEAKER"
  const MultiSpeaker := "MULTI-SPEAKER"

  /** What `get_test_files` returns. */
  function TestFiles(numSpk: int, rawDirs: seq<string>, dataDir: string, walk: string -> seq<WalkStep>,
                     shuffle: (nat, seq<string>) -> seq<string>): TestSetup
  {
    if numSpk == 1 then
      var shuffled := shuffle(0, WantedFiles(walk(dataDir), false));
      TestSetup(SingleSpeaker, false, Stems(shuffled[..if |shuffled| < 3 then |shuffled| else 3]))
    else TestSetup(MultiSpeaker, true, FolderPrefixes(rawDirs, walk, shuffle, |rawDirs|))
  }

  /** `get_test_files`. */
  method GetTestFiles(numSpk: int, rawDirs: seq<string>, dataDir: string, walk: string -> seq<WalkStep>,
                      shuffle: (nat, seq<string>) -> seq<string>) returns (r: TestSetup)
    ensures r == TestFiles(numSpk, rawDirs, dataDir, walk, shuffle)
  {
    if numSpk == 1 {
      var all := CollectWanted(walk(dataDir), false);
      all := shuffle(0, all);
      var first := all[..if |all| < 3 then |all| else 3];
      r := TestSetup(SingleSpeaker, false, Stems(first));
    } else {
      var prefixes := [];
      for i := 0 to |rawDirs|
        invariant prefixes == FolderPrefixes(rawDirs, walk, shuffle, i)
      {
        var all := CollectWanted(walk(rawDirs[i]), true);
        all := shuffle(i, all);
        prefixes := prefixes + FolderPrefix(FolderId(rawDirs, i), all);
      }
      r := TestSetup(MultiSpeaker, true, prefixes);
    }
  }

  /** `random.shuffle` reorders and neither drops nor adds. */
  ghost predicate Permutes(shuffle: (nat, seq<string>) -> seq<string>) {
    forall n, xs :: multiset(shuffle(n, xs)) == multiset(xs)
  }

  /** A reordering keeps the length and only holds elements of the original. */
  lemma PermutedMembers(xs: seq<string>, ys: seq<string>)
    requires multiset(xs) == multiset(ys)
    ensures |xs| == |ys| && forall k :: 0 <= k < |xs| ==> xs[k] in ys
  {
    assert |multiset(xs)| == |xs| && |multiset(ys)| == |ys|;
    forall k | 0 <= k < |xs| ensures xs[k] in ys {
      assert xs[k] in multiset(xs);
    }
  }

  /**
   * A single-speaker run (exactly one speaker folder) does not use speaker
   * ids and takes the stems of min(3, number of candidates) candidate files,
   * the `.wav` and `.ds` files of the data directory.
   */
  lemma SingleSpeakerTestFiles(rawDirs: seq<string>, dataDir: string, walk: string -> seq<WalkStep>,
                               shuffle: (nat, seq<string>) -> seq<string>)
    requires Permutes(shuffle)
    ensures TestFiles(1, rawDirs, dataDir, walk, shuffle).singerType == SingleSpeaker
    ensures !TestFiles(1, rawDirs, dataDir, walk, shuffle).useSpkId
    ensures var n := |WantedFiles(walk(dataDir), false)|;
      |TestFiles(1, rawDirs, dataDir, walk, shuffle).testPrefixes| == if n < 3 then n else 3
    ensures var r := TestFiles(1, rawDirs, dataDir, walk, shuffle).testPrefixes;
      forall k :: 0 <= k < |r| ==> exists p :: p in WantedFiles(walk(dataDir), false) && r[k] == Stem(p)
  {
    var all := WantedFiles(walk(dataDir), false);
    var shuffled := shuffle(0, all);
    PermutedMembers(shuffled, all);
    var first := shuffled[..if |shuffled| < 3 then |shuffled| else 3];
    var prefixes := Stems(first);
    var r := TestFiles(1, rawDirs, dataDir, walk, shuffle).testPrefixes;
    assert r == prefixes;
    forall k | 0 <= k < |r| ensures exists p :: p in WantedFiles(walk(dataDir), false) && r[k] == Stem(p) {
      assert first[k] == shuffled[k] && shuffled[k] in all;
      assert r[k] == Stem(first[k]);
    }
  }

  /**
   * A run with any other number of speaker folders, zero included, uses
   * speaker ids, and each folder contributes one prefix exactly when it
   * holds a `.ds` file: the folder's id, a colon and the stem of one of its
   * `.ds` files.
   */
  lemma MultiSpeakerTestFiles(numSpk: int, rawDirs: seq<string>, dataDir: string, walk: string -> seq<WalkStep>,
                              shuffle: (nat, seq<string>) -> seq<string>, i: nat)
    requires numSpk != 1 && Permutes(shuffle) && i < |rawDirs|
    ensures var r := TestFiles(numSpk, rawDirs, dataDir, walk, shuffle);
      r.singerType == MultiSpeaker && r.useSpkId
      && |r.testPrefixes| <= |rawDirs|
    ensures var own := FolderPrefix(FolderId(rawDirs, i), shuffle(i, WantedFiles(walk(rawDirs[i]), true)));
      var ds := WantedFiles(walk(rawDirs[i]), true);
      (|own| == 1 <==> ds != [])
      && (|own| == 1 ==> exists p :: p in ds && own[0] == SpeakerPrefix(FolderId(rawDirs, i), p))
  {
    var ds := WantedFiles(walk(rawDirs[i]), true);
    var shuffled := shuffle(i, ds);
    PermutedMembers(shuffled, ds);
  }

  /* ---------------------------------------------------------------------
   * The YAML configurations, edited in place
   * ------------------------------------------------------------------- */

  /** A YAML value as `yaml.safe_load` returns it. */
  datatype Value = Null | Bool(b: bool) | Int(i: int) | Str(s: string) | List(items: seq<Value>)
                 | Dict(entries: map<string, Value>)

  type Mapping = map<string, Value>

  /** The mapping reached by following `path` through nested mappings, when every step is one. */
  function LookupAt(d: Mapping, path: seq<string>): Option<Mapping>
    decreases |path|
  {
    if path == [] then Some(d)
    else if path[0] in d && d[path[0]].Dict? then LookupAt(d[path[0]].entries, path[1..])
    else None
  }

  /** `b` agrees with `a` everywhere except along `path` (where the two are compared one level down). */
  predicate AgreeOffPath(a: Mapping, b: Mapping, path: seq<string>)
    decreases |path|
  {
    path == []
    || (a.Keys == b.Keys
        && (forall k :: k in a && k != path[0] ==> b[k] == a[k])
        && (path[0] in a && a[path[0]].Dict? && b[path[0]].Dict? ==>
              AgreeOffPath(a[path[0]].entries, b[path[0]].entries, path[1..])))
  }

  /**
   * `d[p0]...[pn].update(kvs)`. It fails, as Python raises, exactly when a
   * key on the way is missing or holds something other than a mapping;
   * otherwise the mapping at `path` gains `kvs` and nothing off the path
   * changes.
   */
  function UpdatedAt(d: Mapping, path: seq<string>, kvs: Mapping): (r: Result<Mapping, string>)
    ensures r.Success? <==> LookupAt(d, path).Some?
    ensures r.Success? ==> LookupAt(r.value, path) == Some(LookupAt(d, path).value + kvs)
    ensures r.Success? ==> AgreeOffPath(d, r.value, path)
    decreases |path|
  {
    if path == [] then Success(d + kvs)
    else if path[0] !in d then Failure("KeyError: " + path[0])
    else match d[path[0]]
      case Dict(inner) =>
        (match UpdatedAt(inner, path[1..], kvs)
          case Success(e) => Success(d[path[0] := Dict(e)])
          case Failure(err) => Failure(err))
      case _ => Failure("not a mapping: " + path[0])
  }

  /** A YAML document loaded as a mapping, which the script changes in place. */
  class YamlConfig {
    var entries: Mapping

    constructor (loaded: Mapping)
      ensures entries == loaded
    {
      entries := loaded;
    }

    /** `self[p0]...[pn].update(kvs)`; an update that raises changes nothing. */
    method Update(path: seq<string>, kvs: Mapping) returns (r: Result<(), string>)
      modifies this
      ensures r.Success? <==> LookupAt(old(entries), path).Some?
      ensures r.Success? ==> entries == UpdatedAt(old(entries), path, kvs).value
      ensures r.Failure? ==> entries == old(entries) && UpdatedAt(old(entries), path, kvs) == Failure(r.error)
    {
      var u := UpdatedAt(entries, path, kvs);
      if u.Success? {
        entries := u.value;
        r := Success(());
      } else {
        r := Failure(u.error);
      }
    }
  }

  const PrecisionKey := "pl_trainer_precision"

  /** The base configuration only changes its training precision. */
  method UpdateBaseConfig(cfg: YamlConfig, precision: string)
    modifies cfg
    ensures cfg.entries == old(cfg.entries)[PrecisionKey := Str(precision)]
  {
    var r := cfg.Update([], map[PrecisionKey := Str(precision)]);
    assert r.Success?;
  }

  /** One in-place edit of the model configuration; an `ifPresent` edit is skipped when its first key is absent. */
  datatype Edit = Edit(path: seq<string>, kvs: Mapping, ifPresent: bool)

  predicate Skipped(d: Mapping, e: Edit) {
    e.ifPresent && e.path != [] && e.path[0] !in d
  }

  /** The edits applied in order; the first that raises ends the run. */
  function ApplyEdits(d: Mapping, es: seq<Edit>): Result<Mapping, string>
    decreases |es|
  {
    if es == [] then Success(d)
    else if Skipped(d, es[0]) then ApplyEdits(d, es[1..])
    else match UpdatedAt(d, es[0].path, es[0].kvs)
      case Success(d1) => ApplyEdits(d1, es[1..])
      case Failure(e) => Failure(e)
  }

  /** The top-level keys an edit script may change. */
  function Touched(es: seq<Edit>): set<string>
    decreases |es|
  {
    if es == [] then {}
    else (if es[0].path == [] then es[0].kvs.Keys else {es[0].path[0]}) + Touched(es[1..])
  }

  /** An edit script leaves every top-level key it does not touch as it was. */
  lemma {:induction false} ApplyEditsFrame(d: Mapping, es: seq<Edit>, k: string)
    requires ApplyEdits(d, es).Success? && k !in Touched(es)
    ensures (k in ApplyEdits(d, es).value <==> k in d)
    ensures k in d ==> ApplyEdits(d, es).value[k] == d[k]
    decreases |es|
  {
    if es != [] {
      if Skipped(d, es[0]) {
        ApplyEditsFrame(d, es[1..], k);
      } else {
        var d1 := UpdatedAt(d, es[0].path, es[0].kvs).value;
        if es[0].path == [] {
          assert LookupAt(d1, []) == Some(d1);
        }
        ApplyEditsFrame(d1, es[1..], k);
      }
    }
  }

  /** A top-level key written by edit `i` and touched by no later edit keeps that value. */
  lemma {:induction false} ApplyEditsSets(d: Mapping, es: seq<Edit>, i: nat, k: string)
    requires ApplyEdits(d, es).Success? && i < |es|
    requires es[i].path == [] && k in es[i].kvs && k !in Touched(es[i + 1..])
    ensures k in ApplyEdits(d, es).value && ApplyEdits(d, es).value[k] == es[i].kvs[k]
    decreases |es|
  {
    if Skipped(d, es[0]) {
      ApplyEditsSets(d, es[1..], i - 1, k);
    } else {
      var d1 := UpdatedAt(d, es[0].path, es[0].kvs).value;
      if i == 0 {
        assert LookupAt(d1, []) == Some(d1);
        ApplyEditsFrame(d1, es[1..], k);
      } else {
        assert es[1..][i - 1 + 1..] == es[i + 1..];
        ApplyEditsSets(d1, es[1..], i - 1, k);
      }
    }
  }

  /** The value at `loc` (the keys from the top down to the entry), when every step before the last is a mapping. */
  function ValueAt(d: Mapping, loc: seq<string>): Option<Value>
    decreases |loc|
  {
    if loc == [] || loc[0] !in d then None
    else if |loc| == 1 then Some(d[loc[0]])
    else if d[loc[0]].Dict? then ValueAt(d[loc[0]].entries, loc[1..])
    else None
  }

  /** Paths `p` and `q` part ways: at some step both go on, under different keys. */
  predicate Apart(p: seq<string>, q: seq<string>)
    decreases |p|
  {
    p != [] && q != [] && (p[0] != q[0] || Apart(p[1..], q[1..]))
  }

  /** After `update` at `path`, each updated key holds its new value. */
  lemma {:induction false} UpdatedAtWrites(d: Mapping, path: seq<string>, kvs: Mapping, k: string)
    requires UpdatedAt(d, path, kvs).Success? && k in kvs
    ensures ValueAt(UpdatedAt(d, path, kvs).value, path + [k]) == Some(kvs[k])
    decreases |path|
  {
    if path != [] {
      var inner := d[path[0]].entries;
      UpdatedAtWrites(inner, path[1..], kvs, k);
      assert (path + [k])[1..] == path[1..] + [k];
    }
  }

  /** An `update` at `path` leaves the value at every location apart from `path`. */
  lemma {:induction false} UpdatedAtApart(d: Mapping, path: seq<string>, kvs: Mapping, loc: seq<string>)
    requires UpdatedAt(d, path, kvs).Success? && Apart(path, loc)
    ensures ValueAt(UpdatedAt(d, path, kvs).value, loc) == ValueAt(d, loc)
    decreases |path|
  {
    if path[0] == loc[0] {
      UpdatedAtApart(d[path[0]].entries, path[1..], kvs, loc[1..]);
    }
  }

  /** The paths of an edit script's edits, in order. */
  function PathsOf(es: seq<Edit>): (ps: seq<seq<string>>)
    ensures |ps| == |es| && forall j :: 0 <= j < |es| ==> ps[j] == es[j].path
  {
    seq(|es|, j requires 0 <= j < |es| => es[j].path)
  }

  /** An edit script whose every edit is apart from `loc` leaves the value at `loc`. */
  lemma {:induction false} ApplyEditsApart(d: Mapping, es: seq<Edit>, loc: seq<string>)
    requires ApplyEdits(d, es).Success?
    requires forall p :: p in PathsOf(es) ==> Apart(p, loc)
    ensures ValueAt(ApplyEdits(d, es).value, loc) == ValueAt(d, loc)
    decreases |es|
  {
    if es != [] {
      assert PathsOf(es)[0] == es[0].path;
      assert PathsOf(es[1..]) == PathsOf(es)[1..];
      if Skipped(d, es[0]) {
        ApplyEditsApart(d, es[1..], loc);
      } else {
        var d1 := UpdatedAt(d, es[0].path, es[0].kvs).value;
        UpdatedAtApart(d, es[0].path, es[0].kvs, loc);
        ApplyEditsApart(d1, es[1..], loc);
      }
    }
  }

  /**
   * In a successful run, a key written by an edit that always runs keeps
   * its value when every later edit is apart from it.
   */
  lemma {:induction false} ApplyEditsWritesAt(d: Mapping, es: seq<Edit>, i: nat, k: string)
    requires ApplyEdits(d, es).Success? && i < |es|
    requires !es[i].ifPresent && k in es[i].kvs
    requires forall p :: p in PathsOf(es[i + 1..]) ==> Apart(p, es[i].path + [k])
    ensures ValueAt(ApplyEdits(d, es).value, es[i].path + [k]) == Some(es[i].kvs[k])
    decreases |es|
  {
    if i == 0 {
      var d1 := UpdatedAt(d, es[0].path, es[0].kvs).value;
      UpdatedAtWrites(d, es[0].path, es[0].kvs, k);
      ApplyEditsApart(d1, es[1..], es[0].path + [k]);
    } else {
      assert es[1..][i - 1 + 1..] == es[i + 1..];
      if Skipped(d, es[0]) {
        ApplyEditsWritesAt(d, es[1..], i - 1, k);
      } else {
        ApplyEditsWritesAt(UpdatedAt(d, es[0].path, es[0].kvs).value, es[1..], i - 1, k);
      }
    }
  }

  /** In-place application of one edit of a script, as the script's statements do it. */
  method ApplyEdit(cfg: YamlConfig, es: seq<Edit>, i: nat) returns (r: Result<(), string>)
    requires i < |es|
    modifies cfg
    ensures r.Success? ==> ApplyEdits(old(cfg.entries), es[i..]) == ApplyEdits(cfg.entries, es[i + 1..])
    ensures r.Failure? ==> ApplyEdits(old(cfg.entries), es[i..]) == Failure(r.error)
  {
    assert es[i..][1..] == es[i + 1..];
    var e := es[i];
    if Skipped(cfg.entries, e) {
      r := Success(());
    } else {
      r := cfg.Update(e.path, e.kvs);
    }
  }

  /** The parsed command line. */
  datatype Options = Options(
    modelType: string, diffusionType: string, diffAccelerator: string, lossType: string, dataDir: string,
    useShallowDiffusion: string, precision: string, saveDir: string, enableFinetuning: bool,
    baseModelPath: Option<string>, selectedParam: string, parameterExtraction: string, pitchTraining: string,
    f0Extractor: string, samplingAlgorithm: string, acousticHiddenSize: int, acousticNumLayers: int,
    acousticNumChannels: int, varianceHiddenSize: int, durationHiddenSize: int, melodyEncoderHiddenSize: int,
    pitchNumLayers: int, pitchNumChannels: int, varianceNumLayers: int, varianceNumChannels: int)

  function OptStr(o: Option<string>): Value {
    if o.Some? then Str(o.value) else Null
  }

  function StrList(xs: seq<string>): Value {
    List(seq(|xs|, k requires 0 <= k < |xs| => Str(xs[k])))
  }

  const Lynxnet := "lynxnet"
  const RmvpeCheckpoint := "checkpoints/rmvpe/model.pt"

  /** The speaker set-up every model type receives. */
  function SpeakerSettings(speakers: seq<string>, rawDirs: seq<string>, setup: TestSetup): Mapping {
    map[
      "speakers" := StrList(speakers),
      "test_prefixes" := StrList(setup.testPrefixes),
      "raw_data_dir" := StrList(rawDirs),
      "num_spk" := Int(|speakers|),
      "use_spk_id" := Bool(setup.useSpkId)
    ]
  }

  /** The diffusion and network choices every model type receives. */
  function NetworkSettings(o: Options): Mapping {
    map[
      "diffusion_type" := Str(o.diffusionType),
      "diff_accelerator" := Str(o.diffAccelerator),
      "main_loss_type" := Str(o.lossType),
      "sampling_algorithm" := Str(o.samplingAlgorithm),
      "hidden_size" := Int(o.acousticHiddenSize),
      "backbone_type" := Str(Lynxnet)
    ]
  }

  /** `binary_save_dir`, the folder for binarized data inside the save directory. */
  function BinarySaveDir(saveDir: string): (dir: string)
    ensures Basename(dir) == "binary" && IsSuffix("binary", dir)
  {
    BinaryHasNoSlash();
    PathJoin(saveDir, "binary")
  }

  lemma BinaryHasNoSlash()
    ensures '/' !in "binary"
  {
  }

  /** The data locations and extractors every model type receives. */
  function DataSettings(o: Options, binaryDir: string): Mapping {
    map[
      "binary_data_dir" := Str(binaryDir),
      "dictionary" := Str("dictionaries/custom_dict.txt"),
      "pe" := Str(o.f0Extractor),
      "pe_ckpt" := if o.f0Extractor == "rmvpe" then Str(RmvpeCheckpoint) else Null,
      "hnsep" := Str(o.parameterExtraction),
      "hnsep_ckpt" := Str("checkpoints/vr/model.pt")
    ]
  }

  /** The fine-tuning and precision settings every model type receives. */
  function TrainingSettings(o: Options, ft: FinetuneSettings): Mapping {
    map[
      "finetune_enabled" := Bool(o.enableFinetuning),
      "finetune_ckpt_path" := OptStr(ft.checkpoint),
      "finetune_strict_shapes" := Bool(ft.strictShapes),
      PrecisionKey := Str(o.precision)
    ]
  }

  /** The keys of the first `model_config.update`, which every model type receives. */
  function CommonSettings(o: Options, speakers: seq<string>, rawDirs: seq<string>, setup: TestSetup,
                          binaryDir: string, ft: FinetuneSettings): Mapping {
    SpeakerSettings(speakers, rawDirs, setup) + NetworkSettings(o) + DataSettings(o, binaryDir)
    + TrainingSettings(o, ft)
  }

  function AcousticSettings(o: Options): Mapping {
    var v := SelectedParam(o.selectedParam);
    map[
      "use_key_shift_embed" := Bool(DataAug),
      "use_speed_embed" := Bool(DataAug),
      "use_energy_embed" := Bool(v.energy),
      "use_breathiness_embed" := Bool(v.breathiness),
      "use_tension_embed" := Bool(v.tension),
      "use_voicing_embed" := Bool(v.voicing),
      "use_shallow_diffusion" := Bool(ShallowDiffusion(o.useShallowDiffusion).useShallow)
    ]
  }

  function VarianceSettings(o: Options): Mapping {
    var v := SelectedParam(o.selectedParam);
    var p := PitchTraining(o.pitchTraining);
    map[
      "predict_energy" := Bool(v.energy),
      "predict_breathiness" := Bool(v.breathiness),
      "predict_tension" := Bool(v.tension),
      "predict_pitch" := Bool(p.pitch),
      "predict_voicing" := Bool(v.voicing),
      "use_melody_encoder" := Bool(p.melodyEncoder),
      "use_glide_embed" := Bool(p.glideEmbed),
      "predict_dur" := Bool(DurationTraining),
      "hidden_size" := Int(o.varianceHiddenSize)
    ]
  }

  function Backbone(numLayers: int, numChannels: int): Mapping {
    map["num_layers" := Int(numLayers), "num_channels" := Int(numChannels)]
  }

  /**
   * The edits of the acoustic branch: the common keys, the acoustic keys and
   * the nested sections; `val_gt_start`, written only when the configuration
   * has a `shallow_diffusion_args` section, is the given flag.
   */
  function AcousticEditsWith(o: Options, common: Mapping, valGtStart: bool): seq<Edit> {
    [ Edit([], common, false),
      Edit([], AcousticSettings(o), false),
      Edit(["backbone_args"], Backbone(o.acousticNumLayers, o.acousticNumChannels), false),
      Edit(["augmentation_args", "random_pitch_shifting"], map["enabled" := Bool(DataAug)], false),
      Edit(["augmentation_args", "random_time_stretching"], map["enabled" := Bool(DataAug)], false),
      Edit(["shallow_diffusion_args"], map["val_gt_start" := Bool(valGtStart)], true) ]
  }

  /** The acoustic branch as written: `val_gt_start` is taken from `data_aug`. */
  function AcousticEdits(o: Options, common: Mapping): seq<Edit> {
    AcousticEditsWith(o, common, DataAug)
  }

  /**
   * The acoustic branch as intended: `val_gt_start` is `gt_shallow`, true
   * exactly for the `true_gt_val` mode (and any other unlisted mode).
   */
  function AcousticEditsCorrected(o: Options, common: Mapping): seq<Edit> {
    AcousticEditsWith(o, common, ShallowDiffusion(o.useShallowDiffusion).gtShallow)
  }

  /** The edits of the variance branch. */
  function VarianceEdits(o: Options, common: Mapping): seq<Edit> {
    [ Edit([], common, false),
      Edit([], VarianceSettings(o), false),
      Edit(["binarization_args"], map["prefer_ds" := Bool(PreferDs)], false),
      Edit(["dur_prediction_args"], map["hidden_size" := Int(o.durationHiddenSize)], false),
      Edit(["melody_encoder_args"], map["hidden_size" := Int(o.melodyEncoderHiddenSize)], false),
      Edit(["variances_prediction_args"], map["backbone_type" := Str(Lynxnet)], false),
      Edit(["variances_prediction_args", "backbone_args"], Backbone(o.varianceNumLayers, o.varianceNumChannels), false),
      Edit(["pitch_prediction_args"], map["backbone_type" := Str(Lynxnet)], false),
      Edit(["pitch_prediction_args", "backbone_args"], Backbone(o.pitchNumLayers, o.pitchNumChannels), false) ]
  }

  /** The model type picks the branch by its prefix. */
  function ModelEdits(o: Options, common: Mapping): seq<Edit> {
    if IsPrefix("acoustic", o.modelType) then AcousticEdits(o, common) else VarianceEdits(o, common)
  }

  /** The same choice with the corrected acoustic branch. */
  function ModelEditsCorrected(o: Options, common: Mapping): seq<Edit> {
    if IsPrefix("acoustic", o.modelType) then AcousticEditsCorrected(o, common) else VarianceEdits(o, common)
  }

  /**
   * Applies an edit script to the configuration in place, one statement of
   * the script after another, stopping at the first that raises.
   */
  method RunEdits(cfg: YamlConfig, es: seq<Edit>) returns (r: Result<(), string>)
    modifies cfg
    ensures ApplyEdits(old(cfg.entries), es) == if r.Success? then Success(cfg.entries) else Failure(r.error)
  {
    assert es[0..] == es;
    for i := 0 to |es|
      invariant ApplyEdits(old(cfg.entries), es) == ApplyEdits(cfg.entries, es[i..])
    {
      r := ApplyEdit(cfg, es, i);
      if r.Failure? {
        return;
      }
    }
    assert es[|es|..] == [];
    r := Success(());
  }

  /**
   * The model-configuration updates of `main`. It succeeds exactly when the
   * branch's edit script does, and leaves the edited mapping.
   */
  method ConfigureModel(cfg: YamlConfig, o: Options, speakers: seq<string>, rawDirs: seq<string>, setup: TestSetup,
                        binaryDir: string, ft: FinetuneSettings)
    returns (r: Result<(), string>)
    modifies cfg
    ensures ApplyEdits(old(cfg.entries), ModelEdits(o, CommonSettings(o, speakers, rawDirs, setup, binaryDir, ft)))
         == if r.Success? then Success(cfg.entries) else Failure(r.error)
  {
    r := RunEdits(cfg, ModelEdits(o, CommonSettings(o, speakers, rawDirs, setup, binaryDir, ft)));
  }

  /** Running two scripts one after the other is running their concatenation. */
  lemma {:induction false} ApplyEditsAppend(d: Mapping, es1: seq<Edit>, es2: seq<Edit>)
    ensures ApplyEdits(d, es1 + es2)
         == match ApplyEdits(d, es1) case Success(d1) => ApplyEdits(d1, es2) case Failure(e) => Failure(e)
    decreases |es1|
  {
    if es1 != [] {
      assert (es1 + es2)[1..] == es1[1..] + es2;
      if Skipped(d, es1[0]) {
        ApplyEditsAppend(d, es1[1..], es2);
      } else if UpdatedAt(d, es1[0].path, es1[0].kvs).Success? {
        ApplyEditsAppend(UpdatedAt(d, es1[0].path, es1[0].kvs).value, es1[1..], es2);
      }
    } else {
      assert es1 + es2 == es2;
    }
  }

  /** The top-level keys of an acoustic run: the common ones, the acoustic ones and three nested sections. */
  lemma AcousticTouches(o: Options, common: Mapping, valGtStart: bool)
    ensures Touched(AcousticEditsWith(o, common, valGtStart))
         == common.Keys + AcousticSettings(o).Keys
            + {"backbone_args", "augmentation_args", "shallow_diffusion_args"}
  {
    AcousticAfterCommon(o, common, valGtStart);
    BranchKeys(o);
  }

  /** The top-level keys of a variance run: the common ones, the variance ones and five nested sections. */
  lemma VarianceTouches(o: Options, common: Mapping)
    ensures Touched(VarianceEdits(o, common))
         == common.Keys + VarianceSettings(o).Keys
            + {"binarization_args", "dur_prediction_args", "melody_encoder_args", "variances_prediction_args",
               "pitch_prediction_args"}
  {
    VarianceAfterCommon(o, common);
    BranchKeys(o);
  }

  const AcousticSections: set<string> := {"backbone_args", "augmentation_args", "shallow_diffusion_args"}
  const VarianceSections: set<string> :=
    {"binarization_args", "dur_prediction_args", "melody_encoder_args", "variances_prediction_args",
     "pitch_prediction_args"}

  lemma AcousticLaterEdits(o: Options, common: Mapping, valGtStart: bool)
    ensures Touched(AcousticEditsWith(o, common, valGtStart)[2..]) == AcousticSections
  {
    var es := AcousticEditsWith(o, common, valGtStart);
    assert Touched(es[5..]) == {"shallow_diffusion_args"};
    assert Touched(es[4..]) == {"augmentation_args", "shallow_diffusion_args"};
  }

  lemma AcousticSettingsAreNotSections(o: Options)
    ensures AcousticSettings(o).Keys !! AcousticSections
  {
  }

  lemma VarianceSettingsAreNotSections(o: Options)
    ensures VarianceSettings(o).Keys !! VarianceSections
  {
  }

  lemma VarianceLaterEdits(o: Options, common: Mapping)
    ensures Touched(VarianceEdits(o, common)[2..]) == VarianceSections
  {
    var es := VarianceEdits(o, common);
    assert Touched(es[8..]) == {"pitch_prediction_args"};
    assert Touched(es[7..]) == {"pitch_prediction_args"};
    assert Touched(es[6..]) == {"variances_prediction_args", "pitch_prediction_args"};
    assert Touched(es[5..]) == {"variances_prediction_args", "pitch_prediction_args"};
    assert Touched(es[4..]) == {"melody_encoder_args", "variances_prediction_args", "pitch_prediction_args"};
    assert Touched(es[3..]) == {"dur_prediction_args", "melody_encoder_args", "variances_prediction_args",
                                "pitch_prediction_args"};
  }

  /** A successful acoustic run keeps every acoustic top-level setting it wrote. */
  lemma AcousticKeyKept(d: Mapping, o: Options, common: Mapping, valGtStart: bool, k: string)
    requires ApplyEdits(d, AcousticEditsWith(o, common, valGtStart)).Success?
    requires k in AcousticSettings(o)
    ensures var r := ApplyEdits(d, AcousticEditsWith(o, common, valGtStart)).value;
      k in r && r[k] == AcousticSettings(o)[k]
  {
    var es := AcousticEditsWith(o, common, valGtStart);
    AcousticLaterEdits(o, common, valGtStart);
    AcousticSettingsAreNotSections(o);
    assert es[1] == Edit([], AcousticSettings(o), false);
    ApplyEditsSets(d, es, 1, k);
  }

  /** A successful variance run keeps every variance top-level setting it wrote. */
  lemma VarianceKeyKept(d: Mapping, o: Options, common: Mapping, k: string)
    requires ApplyEdits(d, VarianceEdits(o, common)).Success?
    requires k in VarianceSettings(o)
    ensures var r := ApplyEdits(d, VarianceEdits(o, common)).value;
      k in r && r[k] == VarianceSettings(o)[k]
  {
    var es := VarianceEdits(o, common);
    VarianceLaterEdits(o, common);
    VarianceSettingsAreNotSections(o);
    assert es[1] == Edit([], VarianceSettings(o), false);
    ApplyEditsSets(d, es, 1, k);
  }

  lemma AcousticSettingValues(o: Options)
    ensures var s, v := AcousticSettings(o), SelectedParam(o.selectedParam);
      s["use_key_shift_embed"] == Bool(true) && s["use_speed_embed"] == Bool(true)
      && s["use_energy_embed"] == Bool(v.energy) && s["use_breathiness_embed"] == Bool(v.breathiness)
      && s["use_tension_embed"] == Bool(v.tension) && s["use_voicing_embed"] == Bool(v.voicing)
      && s["use_shallow_diffusion"] == Bool(ShallowDiffusion(o.useShallowDiffusion).useShallow)
  {
  }

  lemma VarianceSettingValues(o: Options)
    ensures var s, v := VarianceSettings(o), SelectedParam(o.selectedParam);
      s["predict_energy"] == Bool(v.energy) && s["predict_breathiness"] == Bool(v.breathiness)
      && s["predict_tension"] == Bool(v.tension) && s["predict_voicing"] == Bool(v.voicing)
  {
  }

  /**
   * What a successful acoustic run leaves: data augmentation switches the
   * key-shift and speed embeddings on, the embeddings follow
   * `--selected-param` and shallow diffusion follows its mode.
   */
  lemma AcousticValues(d: Mapping, o: Options, common: Mapping, valGtStart: bool)
    requires ApplyEdits(d, AcousticEditsWith(o, common, valGtStart)).Success?
    ensures var r := ApplyEdits(d, AcousticEditsWith(o, common, valGtStart)).value;
      var v := SelectedParam(o.selectedParam);
      "use_key_shift_embed" in r && r["use_key_shift_embed"] == Bool(true)
      && "use_speed_embed" in r && r["use_speed_embed"] == Bool(true)
      && "use_energy_embed" in r && r["use_energy_embed"] == Bool(v.energy)
      && "use_breathiness_embed" in r && r["use_breathiness_embed"] == Bool(v.breathiness)
      && "use_tension_embed" in r && r["use_tension_embed"] == Bool(v.tension)
      && "use_voicing_embed" in r && r["use_voicing_embed"] == Bool(v.voicing)
      && "use_shallow_diffusion" in r
      && r["use_shallow_diffusion"] == Bool(ShallowDiffusion(o.useShallowDiffusion).useShallow)
  {
    AcousticSettingValues(o);
    AcousticKeyKept(d, o, common, valGtStart, "use_key_shift_embed");
    AcousticKeyKept(d, o, common, valGtStart, "use_speed_embed");
    AcousticKeyKept(d, o, common, valGtStart, "use_energy_embed");
    AcousticKeyKept(d, o, common, valGtStart, "use_breathiness_embed");
    AcousticKeyKept(d, o, common, valGtStart, "use_tension_embed");
    AcousticKeyKept(d, o, common, valGtStart, "use_voicing_embed");
    AcousticKeyKept(d, o, common, valGtStart, "use_shallow_diffusion");
  }

  /**
   * What a successful acoustic run leaves in the nested sections: the
   * backbone takes the requested depth and width, and data augmentation
   * switches random pitch shifting and random time stretching on.
   */
  lemma AcousticSectionValues(d: Mapping, o: Options, common: Mapping, valGtStart: bool)
    requires ApplyEdits(d, AcousticEditsWith(o, common, valGtStart)).Success?
    ensures var r := ApplyEdits(d, AcousticEditsWith(o, common, valGtStart)).value;
      ValueAt(r, ["backbone_args", "num_layers"]) == Some(Int(o.acousticNumLayers))
      && ValueAt(r, ["backbone_args", "num_channels"]) == Some(Int(o.acousticNumChannels))
      && ValueAt(r, ["augmentation_args", "random_pitch_shifting", "enabled"]) == Some(Bool(true))
      && ValueAt(r, ["augmentation_args", "random_time_stretching", "enabled"]) == Some(Bool(true))
  {
    var es := AcousticEditsWith(o, common, valGtStart);
    AcousticPathsApart();
    assert PathsOf(es[3..]) == AcousticLaterPaths;
    assert PathsOf(es[4..]) == AcousticLaterPaths[1..] && PathsOf(es[5..]) == AcousticLaterPaths[2..];
    assert es[2].path + ["num_layers"] == ["backbone_args", "num_layers"];
    assert es[2].path + ["num_channels"] == ["backbone_args", "num_channels"];
    assert es[3].path + ["enabled"] == ["augmentation_args", "random_pitch_shifting", "enabled"];
    assert es[4].path + ["enabled"] == ["augmentation_args", "random_time_stretching", "enabled"];
    ApplyEditsWritesAt(d, es, 2, "num_layers");
    ApplyEditsWritesAt(d, es, 2, "num_channels");
    ApplyEditsWritesAt(d, es, 3, "enabled");
    ApplyEditsWritesAt(d, es, 4, "enabled");
  }

  /** The paths of the acoustic edits after `backbone_args`, in order. */
  const AcousticLaterPaths: seq<seq<string>> :=
    [["augmentation_args", "random_pitch_shifting"], ["augmentation_args", "random_time_stretching"],
     ["shallow_diffusion_args"]]

  /** The sections the acoustic branch edits are apart from one another. */
  lemma AcousticPathsApart()
    ensures forall p :: p in AcousticLaterPaths
              ==> Apart(p, ["backbone_args", "num_layers"]) && Apart(p, ["backbone_args", "num_channels"])
    ensures forall p :: p in AcousticLaterPaths[1..] ==> Apart(p, ["augmentation_args", "random_pitch_shifting", "enabled"])
    ensures forall p :: p in AcousticLaterPaths[2..] ==> Apart(p, ["augmentation_args", "random_time_stretching", "enabled"])
  {
  }

  /**
   * What a successful variance run leaves: duration is always predicted,
   * the glide embedding is never used, pitch and the melody encoder follow
   * `--pitch-training`, and the hidden size is the variance one, replacing
   * the acoustic size written with the common keys.
   */
  lemma VarianceValues(d: Mapping, o: Options, common: Mapping)
    requires ApplyEdits(d, VarianceEdits(o, common)).Success?
    ensures var r := ApplyEdits(d, VarianceEdits(o, common)).value;
      var p := PitchTraining(o.pitchTraining);
      "predict_dur" in r && r["predict_dur"] == Bool(true)
      && "use_glide_embed" in r && r["use_glide_embed"] == Bool(false)
      && "predict_pitch" in r && r["predict_pitch"] == Bool(p.pitch)
      && "use_melody_encoder" in r && r["use_melody_encoder"] == Bool(p.melodyEncoder)
      && "hidden_size" in r && r["hidden_size"] == Int(o.varianceHiddenSize)
  {
    VarianceKeyKept(d, o, common, "predict_dur");
    VarianceKeyKept(d, o, common, "use_glide_embed");
    VarianceKeyKept(d, o, common, "predict_pitch");
    VarianceKeyKept(d, o, common, "use_melody_encoder");
    VarianceKeyKept(d, o, common, "hidden_size");
  }

  /**
   * What a successful variance run leaves in the nested sections: no
   * preference for `.ds` files, the duration and melody-encoder hidden
   * sizes, and a `lynxnet` backbone of the requested depth and width for
   * both the variance and the pitch predictor.
   */
  lemma VarianceSectionValues(d: Mapping, o: Options, common: Mapping)
    requires ApplyEdits(d, VarianceEdits(o, common)).Success?
    ensures var r := ApplyEdits(d, VarianceEdits(o, common)).value;
      ValueAt(r, ["binarization_args", "prefer_ds"]) == Some(Bool(false))
      && ValueAt(r, ["dur_prediction_args", "hidden_size"]) == Some(Int(o.durationHiddenSize))
      && ValueAt(r, ["melody_encoder_args", "hidden_size"]) == Some(Int(o.melodyEncoderHiddenSize))
  {
    var es := VarianceEdits(o, common);
    VarianceSectionsApart();
    assert PathsOf(es[3..]) == VarianceLaterPaths;
    assert PathsOf(es[4..]) == VarianceLaterPaths[1..] && PathsOf(es[5..]) == VarianceLaterPaths[2..];
    assert es[2].path + ["prefer_ds"] == ["binarization_args", "prefer_ds"];
    assert es[3].path + ["hidden_size"] == ["dur_prediction_args", "hidden_size"];
    assert es[4].path + ["hidden_size"] == ["melody_encoder_args", "hidden_size"];
    ApplyEditsWritesAt(d, es, 2, "prefer_ds");
    ApplyEditsWritesAt(d, es, 3, "hidden_size");
    ApplyEditsWritesAt(d, es, 4, "hidden_size");
  }

  /** The variance predictor's backbone after a successful variance run. */
  lemma VariancePredictorBackbone(d: Mapping, o: Options, common: Mapping)
    requires ApplyEdits(d, VarianceEdits(o, common)).Success?
    ensures var r := ApplyEdits(d, VarianceEdits(o, common)).value;
      ValueAt(r, ["variances_prediction_args", "backbone_type"]) == Some(Str(Lynxnet))
      && ValueAt(r, ["variances_prediction_args", "backbone_args", "num_layers"]) == Some(Int(o.varianceNumLayers))
      && ValueAt(r, ["variances_prediction_args", "backbone_args", "num_channels"]) == Some(Int(o.varianceNumChannels))
  {
    var es := VarianceEdits(o, common);
    VarianceSectionsApart();
    assert PathsOf(es[6..]) == VarianceLaterPaths[3..] && PathsOf(es[7..]) == VarianceLaterPaths[4..];
    assert es[5].path + ["backbone_type"] == ["variances_prediction_args", "backbone_type"];
    assert es[6].path + ["num_layers"] == ["variances_prediction_args", "backbone_args", "num_layers"];
    assert es[6].path + ["num_channels"] == ["variances_prediction_args", "backbone_args", "num_channels"];
    ApplyEditsWritesAt(d, es, 5, "backbone_type");
    ApplyEditsWritesAt(d, es, 6, "num_layers");
    ApplyEditsWritesAt(d, es, 6, "num_channels");
  }

  /** The pitch predictor's backbone after a successful variance run. */
  lemma PitchPredictorBackbone(d: Mapping, o: Options, common: Mapping)
    requires ApplyEdits(d, VarianceEdits(o, common)).Success?
    ensures var r := ApplyEdits(d, VarianceEdits(o, common)).value;
      ValueAt(r, ["pitch_prediction_args", "backbone_type"]) == Some(Str(Lynxnet))
      && ValueAt(r, ["pitch_prediction_args", "backbone_args", "num_layers"]) == Some(Int(o.pitchNumLayers))
      && ValueAt(r, ["pitch_prediction_args", "backbone_args", "num_channels"]) == Some(Int(o.pitchNumChannels))
  {
    var es := VarianceEdits(o, common);
    VarianceSectionsApart();
    assert PathsOf(es[8..]) == VarianceLaterPaths[5..] && PathsOf(es[9..]) == [];
    assert es[7].path + ["backbone_type"] == ["pitch_prediction_args", "backbone_type"];
    assert es[8].path + ["num_layers"] == ["pitch_prediction_args", "backbone_args", "num_layers"];
    assert es[8].path + ["num_channels"] == ["pitch_prediction_args", "backbone_args", "num_channels"];
    ApplyEditsWritesAt(d, es, 7, "backbone_type");
    ApplyEditsWritesAt(d, es, 8, "num_layers");
    ApplyEditsWritesAt(d, es, 8, "num_channels");
  }

  /** The sections the variance branch edits are apart from one another. */
  lemma VarianceSectionsApart()
    ensures forall p :: p in VarianceLaterPaths ==> Apart(p, ["binarization_args", "prefer_ds"])
    ensures forall p :: p in VarianceLaterPaths[1..] ==> Apart(p, ["dur_prediction_args", "hidden_size"])
    ensures forall p :: p in VarianceLaterPaths[2..] ==> Apart(p, ["melody_encoder_args", "hidden_size"])
    ensures forall p :: p in VarianceLaterPaths[3..] ==> Apart(p, ["variances_prediction_args", "backbone_type"])
    ensures forall p :: p in VarianceLaterPaths[4..]
              ==> Apart(p, ["variances_prediction_args", "backbone_args", "num_layers"])
                  && Apart(p, ["variances_prediction_args", "backbone_args", "num_channels"])
    ensures forall p :: p in VarianceLaterPaths[5..] ==> Apart(p, ["pitch_prediction_args", "backbone_type"])
  {
  }

  /** The paths of the variance edits after `binarization_args`, in order. */
  const VarianceLaterPaths: seq<seq<string>> :=
    [["dur_prediction_args"], ["melody_encoder_args"], ["variances_prediction_args"],
     ["variances_prediction_args", "backbone_args"], ["pitch_prediction_args"],
     ["pitch_prediction_args", "backbone_args"]]

  /** In a successful variance run the predicted parameters follow `--selected-param`. */
  lemma VariancePredictions(d: Mapping, o: Options, common: Mapping)
    requires ApplyEdits(d, VarianceEdits(o, common)).Success?
    ensures var r := ApplyEdits(d, VarianceEdits(o, common)).value;
      var v := SelectedParam(o.selectedParam);
      "predict_energy" in r && r["predict_energy"] == Bool(v.energy)
      && "predict_breathiness" in r && r["predict_breathiness"] == Bool(v.breathiness)
      && "predict_tension" in r && r["predict_tension"] == Bool(v.tension)
      && "predict_voicing" in r && r["predict_voicing"] == Bool(v.voicing)
  {
    VarianceSettingValues(o);
    VarianceKeyKept(d, o, common, "predict_energy");
    VarianceKeyKept(d, o, common, "predict_breathiness");
    VarianceKeyKept(d, o, common, "predict_tension");
    VarianceKeyKept(d, o, common, "predict_voicing");
  }

  const AcousticKeys: set<string> :=
    {"use_key_shift_embed", "use_speed_embed", "use_energy_embed", "use_breathiness_embed", "use_tension_embed",
     "use_voicing_embed", "use_shallow_diffusion"}
  const VarianceKeys: set<string> :=
    {"predict_energy", "predict_breathiness", "predict_tension", "predict_pitch", "predict_voicing",
     "use_melody_encoder", "use_glide_embed", "predict_dur", "hidden_size"}

  /** The acoustic and variance groups write the same keys whatever the options. */
  lemma BranchKeys(o: Options)
    ensures AcousticSettings(o).Keys == AcousticKeys
    ensures VarianceSettings(o).Keys == VarianceKeys
  {
  }

  /** The common keys that neither branch writes again: all of them but `hidden_size`. */
  const SharedKeys: set<string> :=
    {"speakers", "test_prefixes", "raw_data_dir", "num_spk", "use_spk_id",
     "diffusion_type", "diff_accelerator", "main_loss_type", "sampling_algorithm", "backbone_type",
     "binary_data_dir", "dictionary", "pe", "pe_ckpt", "hnsep", "hnsep_ckpt",
     "finetune_enabled", "finetune_ckpt_path", "finetune_strict_shapes", PrecisionKey}

  lemma SharedKeysNotRewritten()
    ensures SharedKeys !! AcousticKeys && SharedKeys !! AcousticSections
    ensures SharedKeys !! VarianceKeys && SharedKeys !! VarianceSections
  {
    forall k | k in SharedKeys
      ensures k !in AcousticKeys && k !in AcousticSections && k !in VarianceKeys && k !in VarianceSections
    {
      SharedKeyNotRewritten(k);
    }
  }

  lemma SharedKeyNotRewritten(k: string)
    requires k in SharedKeys
    ensures k !in AcousticKeys && k !in AcousticSections && k !in VarianceKeys && k !in VarianceSections
  {
  }

  /** The acoustic branch starts with the common edit; the rest touch acoustic keys and sections only. */
  lemma AcousticAfterCommon(o: Options, common: Mapping, valGtStart: bool)
    ensures AcousticEditsWith(o, common, valGtStart)[0] == Edit([], common, false)
    ensures Touched(AcousticEditsWith(o, common, valGtStart)[1..]) == AcousticKeys + AcousticSections
  {
    var es := AcousticEditsWith(o, common, valGtStart);
    BranchKeys(o);
    AcousticLaterEdits(o, common, valGtStart);
    assert es[1..][1..] == es[2..];
  }

  /** The variance branch starts with the common edit; the rest touch variance keys and sections only. */
  lemma VarianceAfterCommon(o: Options, common: Mapping)
    ensures VarianceEdits(o, common)[0] == Edit([], common, false)
    ensures Touched(VarianceEdits(o, common)[1..]) == VarianceKeys + VarianceSections
  {
    var es := VarianceEdits(o, common);
    BranchKeys(o);
    VarianceLaterEdits(o, common);
    assert es[1..][1..] == es[2..];
  }

  /** Either branch starts with the common edit, and its later edits touch only branch keys and sections. */
  lemma ModelEditsLater(o: Options, common: Mapping)
    ensures |ModelEdits(o, common)| >= 1 && ModelEdits(o, common)[0] == Edit([], common, false)
    ensures Touched(ModelEdits(o, common)[1..])
         <= AcousticKeys + AcousticSections + VarianceKeys + VarianceSections
  {
    if IsPrefix("acoustic", o.modelType) {
      AcousticAfterCommon(o, common, DataAug);
    } else {
      VarianceAfterCommon(o, common);
    }
  }

  /** A common key that neither branch writes again keeps the value the common edit gave it. */
  lemma CommonKeyKept(d: Mapping, o: Options, common: Mapping, k: string)
    requires ApplyEdits(d, ModelEdits(o, common)).Success?
    requires k in common
    requires k in SharedKeys
    ensures var r := ApplyEdits(d, ModelEdits(o, common)).value;
      k in r && r[k] == common[k]
  {
    var es := ModelEdits(o, common);
    ModelEditsLater(o, common);
    SharedKeysNotRewritten();
    ApplyEditsSets(d, es, 0, k);
  }

  /** The speaker group holds the speaker-id switch and the test prefixes. */
  lemma SpeakerEntries(speakers: seq<string>, rawDirs: seq<string>, setup: TestSetup)
    ensures var c := SpeakerSettings(speakers, rawDirs, setup);
      "use_spk_id" in c && c["use_spk_id"] == Bool(setup.useSpkId)
      && "test_prefixes" in c && c["test_prefixes"] == StrList(setup.testPrefixes)
  {
  }

  const NetworkKeys: set<string> :=
    {"diffusion_type", "diff_accelerator", "main_loss_type", "sampling_algorithm", "hidden_size", "backbone_type"}
  const DataKeys: set<string> := {"binary_data_dir", "dictionary", "pe", "pe_ckpt", "hnsep", "hnsep_ckpt"}
  const TrainingKeys: set<string> :=
    {"finetune_enabled", "finetune_ckpt_path", "finetune_strict_shapes", PrecisionKey}

  /** The network, data and training groups write the same keys whatever the options. */
  lemma GroupKeys(o: Options, binaryDir: string, ft: FinetuneSettings)
    ensures NetworkSettings(o).Keys == NetworkKeys
    ensures DataSettings(o, binaryDir).Keys == DataKeys
    ensures TrainingSettings(o, ft).Keys == TrainingKeys
  {
  }

  lemma SpeakerKeysNotLater()
    ensures "use_spk_id" !in NetworkKeys + DataKeys + TrainingKeys
    ensures "test_prefixes" !in NetworkKeys + DataKeys + TrainingKeys
    ensures "pe_ckpt" !in TrainingKeys
  {
  }

  /** In a merge of four mappings, a key only the first holds keeps the first's value. */
  lemma MergedFromFirst(a: Mapping, b: Mapping, c: Mapping, e: Mapping, k: string)
    requires k in a && k !in b && k !in c && k !in e
    ensures k in a + b + c + e && (a + b + c + e)[k] == a[k]
  {
  }

  /** The common edit writes the speaker set-up. */
  lemma CommonSpeakerEntries(o: Options, speakers: seq<string>, rawDirs: seq<string>, setup: TestSetup,
                             binaryDir: string, ft: FinetuneSettings)
    ensures var c := CommonSettings(o, speakers, rawDirs, setup, binaryDir, ft);
      "use_spk_id" in c && c["use_spk_id"] == Bool(setup.useSpkId)
      && "test_prefixes" in c && c["test_prefixes"] == StrList(setup.testPrefixes)
  {
    var sp := SpeakerSettings(speakers, rawDirs, setup);
    var net := NetworkSettings(o);
    var data := DataSettings(o, binaryDir);
    var tr := TrainingSettings(o, ft);
    SpeakerEntries(speakers, rawDirs, setup);
    GroupKeys(o, binaryDir, ft);
    SpeakerKeysNotLater();
    MergedFromFirst(sp, net, data, tr, "use_spk_id");
    MergedFromFirst(sp, net, data, tr, "test_prefixes");
  }

  /** Every successful run records the speaker set-up: the speaker-id switch and the test prefixes. */
  lemma SpeakerValues(d: Mapping, o: Options, speakers: seq<string>, rawDirs: seq<string>, setup: TestSetup,
                      binaryDir: string, ft: FinetuneSettings)
    requires ApplyEdits(d, ModelEdits(o, CommonSettings(o, speakers, rawDirs, setup, binaryDir, ft))).Success?
    ensures var r := ApplyEdits(d, ModelEdits(o, CommonSettings(o, speakers, rawDirs, setup, binaryDir, ft))).value;
      "use_spk_id" in r && r["use_spk_id"] == Bool(setup.useSpkId)
      && "test_prefixes" in r && r["test_prefixes"] == StrList(setup.testPrefixes)
  {
    var common := CommonSettings(o, speakers, rawDirs, setup, binaryDir, ft);
    CommonSpeakerEntries(o, speakers, rawDirs, setup, binaryDir, ft);
    CommonKeyKept(d, o, common, "use_spk_id");
    CommonKeyKept(d, o, common, "test_prefixes");
  }

  /** The common edit names the pitch extractor's checkpoint and the fine-tuning settings. */
  lemma CommonTrainingEntries(o: Options, speakers: seq<string>, rawDirs: seq<string>, setup: TestSetup,
                              binaryDir: string, ft: FinetuneSettings)
    ensures var c := CommonSettings(o, speakers, rawDirs, setup, binaryDir, ft);
      "pe_ckpt" in c && c["pe_ckpt"] == (if o.f0Extractor == "rmvpe" then Str(RmvpeCheckpoint) else Null)
      && "finetune_ckpt_path" in c && c["finetune_ckpt_path"] == OptStr(ft.checkpoint)
      && PrecisionKey in c && c[PrecisionKey] == Str(o.precision)
      && "finetune_strict_shapes" in c && c["finetune_strict_shapes"] == Bool(ft.strictShapes)
  {
    var sp := SpeakerSettings(speakers, rawDirs, setup);
    var net := NetworkSettings(o);
    var data := DataSettings(o, binaryDir);
    var tr := TrainingSettings(o, ft);
    GroupKeys(o, binaryDir, ft);
    SpeakerKeysNotLater();
    DataAndTrainingValues(o, binaryDir, ft);
    MergedFromThird(sp, net, data, tr, "pe_ckpt");
  }

  lemma DataAndTrainingValues(o: Options, binaryDir: string, ft: FinetuneSettings)
    ensures DataSettings(o, binaryDir)["pe_ckpt"] == (if o.f0Extractor == "rmvpe" then Str(RmvpeCheckpoint) else Null)
    ensures var tr := TrainingSettings(o, ft);
      tr["finetune_ckpt_path"] == OptStr(ft.checkpoint) && tr[PrecisionKey] == Str(o.precision)
      && tr["finetune_strict_shapes"] == Bool(ft.strictShapes)
  {
  }

  /** In a merge of four mappings, a key the third holds and the fourth does not keeps the third's value. */
  lemma MergedFromThird(a: Mapping, b: Mapping, c: Mapping, e: Mapping, k: string)
    requires k in c && k !in e
    ensures k in a + b + c + e && (a + b + c + e)[k] == c[k]
  {
  }

  /**
   * Every successful run names the RMVPE checkpoint exactly when RMVPE
   * extracts pitch, and records the fine-tuning checkpoint and strictness.
   */
  lemma CheckpointValues(d: Mapping, o: Options, speakers: seq<string>, rawDirs: seq<string>, setup: TestSetup,
                         binaryDir: string, ft: FinetuneSettings)
    requires ApplyEdits(d, ModelEdits(o, CommonSettings(o, speakers, rawDirs, setup, binaryDir, ft))).Success?
    ensures var r := ApplyEdits(d, ModelEdits(o, CommonSettings(o, speakers, rawDirs, setup, binaryDir, ft))).value;
      "pe_ckpt" in r && r["pe_ckpt"] == (if o.f0Extractor == "rmvpe" then Str(RmvpeCheckpoint) else Null)
      && "finetune_ckpt_path" in r && r["finetune_ckpt_path"] == OptStr(ft.checkpoint)
  {
    var common := CommonSettings(o, speakers, rawDirs, setup, binaryDir, ft);
    CommonTrainingEntries(o, speakers, rawDirs, setup, binaryDir, ft);
    CommonKeyKept(d, o, common, "pe_ckpt");
    CommonKeyKept(d, o, common, "finetune_ckpt_path");
  }

  /** Every successful run trains at the requested precision and records the fine-tuning strictness. */
  lemma TrainingValues(d: Mapping, o: Options, speakers: seq<string>, rawDirs: seq<string>, setup: TestSetup,
                       binaryDir: string, ft: FinetuneSettings)
    requires ApplyEdits(d, ModelEdits(o, CommonSettings(o, speakers, rawDirs, setup, binaryDir, ft))).Success?
    ensures var r := ApplyEdits(d, ModelEdits(o, CommonSettings(o, speakers, rawDirs, setup, binaryDir, ft))).value;
      PrecisionKey in r && r[PrecisionKey] == Str(o.precision)
      && "finetune_strict_shapes" in r && r["finetune_strict_shapes"] == Bool(ft.strictShapes)
  {
    var common := CommonSettings(o, speakers, rawDirs, setup, binaryDir, ft);
    CommonTrainingEntries(o, speakers, rawDirs, setup, binaryDir, ft);
    CommonKeyKept(d, o, common, PrecisionKey);
    CommonKeyKept(d, o, common, "finetune_strict_shapes");
  }

  /**
   * With the fine-tuning settings `main` derives from the options, a
   * successful run points at a checkpoint exactly when fine-tuning is on, at
   * the given base model when there is one, and checks shapes strictly
   * exactly when fine-tuning is off.
   */
  lemma FinetuneValues(d: Mapping, o: Options, speakers: seq<string>, rawDirs: seq<string>, setup: TestSetup,
                       binaryDir: string)
    requires var ft := Finetune(o.enableFinetuning, o.baseModelPath, o.modelType);
      ApplyEdits(d, ModelEdits(o, CommonSettings(o, speakers, rawDirs, setup, binaryDir, ft))).Success?
    ensures var ft := Finetune(o.enableFinetuning, o.baseModelPath, o.modelType);
      var r := ApplyEdits(d, ModelEdits(o, CommonSettings(o, speakers, rawDirs, setup, binaryDir, ft))).value;
      "finetune_ckpt_path" in r && (r["finetune_ckpt_path"] == Null <==> !o.enableFinetuning)
      && (o.enableFinetuning && o.baseModelPath.Some? ==> r["finetune_ckpt_path"] == Str(o.baseModelPath.value))
      && "finetune_strict_shapes" in r && r["finetune_strict_shapes"] == Bool(!o.enableFinetuning)
  {
    var ft := Finetune(o.enableFinetuning, o.baseModelPath, o.modelType);
    CheckpointValues(d, o, speakers, rawDirs, setup, binaryDir, ft);
    TrainingValues(d, o, speakers, rawDirs, setup, binaryDir, ft);
  }

  /**
   * A successful acoustic run on a configuration with a
   * `shallow_diffusion_args` section sets its `val_gt_start` to the flag.
   */
  lemma ValGtStartSet(d: Mapping, o: Options, common: Mapping, valGtStart: bool)
    requires ApplyEdits(d, AcousticEditsWith(o, common, valGtStart)).Success?
    requires "shallow_diffusion_args" in d && "shallow_diffusion_args" !in common
    ensures var r := ApplyEdits(d, AcousticEditsWith(o, common, valGtStart)).value;
      "shallow_diffusion_args" in r && r["shallow_diffusion_args"].Dict?
      && "val_gt_start" in r["shallow_diffusion_args"].entries
      && r["shallow_diffusion_args"].entries["val_gt_start"] == Bool(valGtStart)
  {
    var key := "shallow_diffusion_args";
    var kvs := map["val_gt_start" := Bool(valGtStart)];
    var es := AcousticEditsWith(o, common, valGtStart);
    AcousticEditsSplit(o, common, valGtStart);
    BranchKeys(o);
    ShallowSectionIsNew();
    LastSectionEdit(d, es[..5], key, kvs);
  }

  /** The acoustic script is five edits of other keys followed by the `shallow_diffusion_args` edit. */
  lemma AcousticEditsSplit(o: Options, common: Mapping, valGtStart: bool)
    ensures var es := AcousticEditsWith(o, common, valGtStart);
      |es| == 6 && es == es[..5] + [Edit(["shallow_diffusion_args"], map["val_gt_start" := Bool(valGtStart)], true)]
      && Touched(es[..5]) == common.Keys + AcousticSettings(o).Keys + {"backbone_args", "augmentation_args"}
  {
    var es := AcousticEditsWith(o, common, valGtStart);
    assert es == es[..5] + [es[5]];
    assert Touched(es[..5][4..]) == {"augmentation_args"};
    assert Touched(es[..5][2..]) == {"backbone_args", "augmentation_args"};
  }

  lemma ShallowSectionIsNew()
    ensures "shallow_diffusion_args" !in AcousticKeys + {"backbone_args", "augmentation_args"}
  {
  }

  /**
   * When an edit script ends with an update of section `key`, which no
   * earlier edit touches, the section holds its old entries updated by the
   * last edit's.
   */
  lemma LastSectionEdit(d: Mapping, es: seq<Edit>, key: string, kvs: Mapping)
    requires ApplyEdits(d, es + [Edit([key], kvs, true)]).Success?
    requires key in d && key !in Touched(es)
    ensures var r := ApplyEdits(d, es + [Edit([key], kvs, true)]).value;
      key in r && r[key].Dict? && d[key].Dict? && r[key].entries == d[key].entries + kvs
  {
    var e := Edit([key], kvs, true);
    ApplyEditsAppend(d, es, [e]);
    var d1 := ApplyEdits(d, es).value;
    ApplyEditsFrame(d, es, key);
    assert !Skipped(d1, e);
    assert [e][1..] == [];
    var u := UpdatedAt(d1, [key], kvs);
    assert LookupAt(u.value, [key]) == Some(LookupAt(d1, [key]).value + kvs);
  }

  /**
   * As written, `val_gt_start` is always true, so validation starts from
   * the ground truth even in the `false` and `true_aux_val` modes, where
   * `gt_shallow` is false.
   */
  lemma ValGtStartAsWritten(d: Mapping, o: Options, common: Mapping)
    requires ApplyEdits(d, AcousticEdits(o, common)).Success?
    requires "shallow_diffusion_args" in d && "shallow_diffusion_args" !in common
    ensures var r := ApplyEdits(d, AcousticEdits(o, common)).value;
      "shallow_diffusion_args" in r && r["shallow_diffusion_args"].Dict?
      && "val_gt_start" in r["shallow_diffusion_args"].entries
      && r["shallow_diffusion_args"].entries["val_gt_start"] == Bool(true)
    ensures o.useShallowDiffusion == "true_aux_val" ==> !ShallowDiffusion(o.useShallowDiffusion).gtShallow
  {
    ValGtStartSet(d, o, common, DataAug);
  }

  /** As intended, `val_gt_start` follows the mode: true exactly when the mode is neither `false` nor `true_aux_val`. */
  lemma ValGtStartFollowsMode(d: Mapping, o: Options, common: Mapping)
    requires ApplyEdits(d, AcousticEditsCorrected(o, common)).Success?
    requires "shallow_diffusion_args" in d && "shallow_diffusion_args" !in common
    ensures var r := ApplyEdits(d, AcousticEditsCorrected(o, common)).value;
      "shallow_diffusion_args" in r && r["shallow_diffusion_args"].Dict?
      && "val_gt_start" in r["shallow_diffusion_args"].entries
      && r["shallow_diffusion_args"].entries["val_gt_start"]
         == Bool(o.useShallowDiffusion != "false" && o.useShallowDiffusion != "true_aux_val")
  {
    ValGtStartSet(d, o, common, ShallowDiffusion(o.useShallowDiffusion).gtShallow);
  }

  /**
   * The correction changes nothing but `shallow_diffusion_args`: both
   * scripts succeed or fail together, with the same error, and agree on
   * every other top-level key.
   */
  lemma CorrectedChangesOnlyValGtStart(d: Mapping, o: Options, common: Mapping)
    ensures ApplyEdits(d, ModelEdits(o, common)).Success? <==> ApplyEdits(d, ModelEditsCorrected(o, common)).Success?
    ensures ApplyEdits(d, ModelEdits(o, common)).Failure?
            ==> ApplyEdits(d, ModelEdits(o, common)) == ApplyEdits(d, ModelEditsCorrected(o, common))
    ensures ApplyEdits(d, ModelEdits(o, common)).Success? ==>
      var r, c := ApplyEdits(d, ModelEdits(o, common)).value, ApplyEdits(d, ModelEditsCorrected(o, common)).value;
      r.Keys == c.Keys && forall k :: k in r && k != "shallow_diffusion_args" ==> r[k] == c[k]
  {
    if IsPrefix("acoustic", o.modelType) {
      var gt := ShallowDiffusion(o.useShallowDiffusion).gtShallow;
      var es, fs := AcousticEditsWith(o, common, DataAug), AcousticEditsWith(o, common, gt);
      AcousticEditsSplit(o, common, DataAug);
      AcousticEditsSplit(o, common, gt);
      assert es[..5] == fs[..5];
      ApplyEditsAppend(d, es[..5], [es[5]]);
      ApplyEditsAppend(d, es[..5], [fs[5]]);
      var d1 := ApplyEdits(d, es[..5]);
      if d1.Success? {
        LastEditDiffersInValue(d1.value, "shallow_diffusion_args", "val_gt_start", Bool(DataAug), Bool(gt));
      }
    }
  }

  /**
   * Two runs of one `update` of section `key` that differ only in the value
   * written succeed together and agree off `key`.
   */
  lemma LastEditDiffersInValue(d: Mapping, key: string, name: string, x: Value, y: Value)
    ensures var a, b := ApplyEdits(d, [Edit([key], map[name := x], true)]),
                        ApplyEdits(d, [Edit([key], map[name := y], true)]);
      (a.Success? <==> b.Success?) && (a.Failure? ==> a == b)
      && (a.Success? ==> a.value.Keys == b.value.Keys && forall k :: k in a.value && k != key ==> a.value[k] == b.value[k])
  {
    var ex, ey := Edit([key], map[name := x], true), Edit([key], map[name := y], true);
    assert [ex][1..] == [] && [ey][1..] == [];
    if !Skipped(d, ex) {
      var ux, uy := UpdatedAt(d, [key], map[name := x]), UpdatedAt(d, [key], map[name := y]);
      assert ux.Success? <==> uy.Success?;
      if ux.Failure? {
        assert ux == uy;
      }
    }
  }
}