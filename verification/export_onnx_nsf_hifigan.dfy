/**
 * `export_onnx_nsf_hifigan.py`: the variant of the export script that also
 * converts FirSinger acoustic/vocoder and NSF-HiFiGAN vocoder checkpoints.
 * Its `update_hparams` and the first renaming pass are the same code as in
 * `export_onnx.py` and are shared from `ExportOnnx`; its second renaming pass
 * is `ExportOnnx.RenameDoubled` for every file, `.emb` files included. What
 * differs is `export_model`, modelled here.
 */
module ExportOnnxNsfHifigan {
  import opened Wrappers
  import opened Strings
  import opened Paths
  import opened ExportOnnx

  const NsfHifigan := "nsf-hifigan"

  /**
   * `export_model`: an empty checkpoint path exports nothing. Otherwise the
   * converter writes to `{expFolder}/onnx/{modelType}`; every model type but
   * NSF-HiFiGAN first points the hparams work directory at the checkpoint's
   * folder, while NSF-HiFiGAN passes its `config.json`, checkpoint and name
   * on the command line instead. No dictionary is copied.
   */
  function ExportModel(modelType: string, checkpointPath: string, expFolder: string, noOutput: bool,
                       conda: string): (r: ExportPlan)
    ensures r.NotExported? <==> checkpointPath == []
    ensures r.Exported? ==> r.outputPath == OutputPath(expFolder, modelType)
    ensures r.Exported? ==> (r.workDir.Some? <==> modelType != NsfHifigan)
    ensures r.Exported? && r.workDir.Some? ==> r.workDir.value == Dirname(checkpointPath)
    ensures r.Exported? ==> !r.copiesDictionary && !r.stashesCustomDict
    ensures r.Exported? ==> Contains(r.command, " --out " + r.outputPath)
    ensures r.Exported? && noOutput ==> IsSuffix(QuietSuffix, r.command)
    ensures r.Exported? && modelType == NsfHifigan ==> Contains(r.command, " --ckpt " + checkpointPath)
    ensures r.Exported? && modelType == NsfHifigan ==> Contains(r.command, " --name " + Basename(Dirname(checkpointPath)))
    ensures r.Exported? ==> r.folderName == Basename(Dirname(checkpointPath)) + "_" + modelType
    ensures r.Exported? && modelType != NsfHifigan ==> Contains(r.command, " --exp " + r.folderName)
  {
    if checkpointPath == [] then NotExported
    else
      var folderPath := Dirname(checkpointPath);
      var folderName := Basename(folderPath) + "_" + modelType;
      var outputPath := OutputPath(expFolder, modelType);
      var config := conda + " run -n diffsinger_onnx " + ExportScript + modelType + " --config " + folderPath + "/config.json";
      var ckptArg := " --ckpt " + checkpointPath;
      var expArg := " --exp " + folderName;
      var head :=
        if modelType == "fir-acoustic-vocoder" then ExportScript + modelType + expArg
        else if modelType == NsfHifigan then config + ckptArg
        else conda + " run -n diffsinger_onnx " + ExportScript + modelType + expArg;
      var outArg := " --out " + outputPath;
      var tail := if modelType == NsfHifigan then " --name " + Basename(folderPath) else "";
      var command := Silenced(head + outArg + tail, noOutput);
      SilencedContains(head, outArg, tail, noOutput);
      SilencedContains(head + outArg, tail, "", noOutput);
      assert head + outArg + tail + "" == head + outArg + tail;
      assert modelType == NsfHifigan ==> Contains(command, ckptArg) by {
        if modelType == NsfHifigan {
          Associative(config + ckptArg, outArg, tail);
          SilencedContains(config, ckptArg, outArg + tail, noOutput);
        }
      }
      assert modelType != NsfHifigan ==> Contains(command, expArg) by {
        if modelType != NsfHifigan {
          var pre := if modelType == "fir-acoustic-vocoder" then ExportScript + modelType
            else conda + " run -n diffsinger_onnx " + ExportScript + modelType;
          assert head + outArg + tail == pre + expArg + outArg;
          CommandPieces(pre, expArg, outArg, noOutput);
        }
      }
      Exported(folderName, if modelType == NsfHifigan then None else Some(folderPath), false, false,
               command, outputPath)
  }

  /** Quiet mode changes the command only by appending the redirection. */
  lemma ExportQuietAppends(modelType: string, checkpointPath: string, expFolder: string, conda: string)
    requires checkpointPath != []
    ensures ExportModel(modelType, checkpointPath, expFolder, true, conda).command
         == ExportModel(modelType, checkpointPath, expFolder, false, conda).command + QuietSuffix
  {
  }
}
