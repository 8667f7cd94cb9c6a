/** The driver `main`, up to the point where the script is submitted:
    parse the command line, merge the configuration layers, generate the
    script and read whether to ask for confirmation; and the classification
    of the answer to the confirmation prompt. */
module Launcher {
  import opened Wrappers
  import opened Strings
  import opened Dicts
  import CliArgs
  import ConfigMerge
  import ScriptGen

  datatype LaunchError =
    | UsageError(usage: CliArgs.ParseError)
    | ConfigurationError(config: ConfigMerge.ConfigError)
    | GenerationError(generation: ScriptGen.GenerateError)
    | MissingConfirm   // `launch_args["confirm"]` raises

  /** What `main` has before the prompt: the script, the job count, and
      whether to ask before submitting. */
  datatype Plan = Plan(script: string, jobs: nat, confirm: bool)

  /** The three outcomes of one answer to "Launch n jobs? [Y/n]". */
  datatype Response = Proceed | Abort | Reprompt

  /** One answer to the prompt, compared after lower-casing: `y`, `yes` or
      nothing proceeds, `n` or `no` aborts, and anything else asks again. */
  function Classify(answer: string): (r: Response)
    ensures r == Proceed <==> Lower(answer) == "y" || Lower(answer) == "yes" || Lower(answer) == ""
    ensures r == Abort <==> Lower(answer) == "n" || Lower(answer) == "no"
  {
    var a := Lower(answer);
    if a in ["y", "yes", ""] then Proceed
    else if a in ["n", "no"] then Abort
    else Reprompt
  }

  /** The answer is read without regard to case. */
  lemma ClassifyIgnoresCase(answer: string)
    ensures Classify(Lower(answer)) == Classify(answer)
  {
    LowerIdempotent(answer);
  }

  /** An empty answer, `y` and `Yes` proceed, `n` and `No` abort, anything
      else asks again. */
  lemma ClassifyExamples()
    ensures Classify("") == Proceed && Classify("y") == Proceed && Classify("Yes") == Proceed
    ensures Classify("n") == Abort && Classify("No") == Abort
    ensures Classify("maybe") == Reprompt
  {
    assert Lower("") == "";
    assert Lower("y") == "y";
    assert Lower("n") == "n";
    assert Lower("Yes") == "yes";
    assert Lower("No") == "no";
    assert Lower("maybe") == "maybe";
  }

  /** `if launch_args["confirm"]:` tests the string's truthiness, so every
      non-empty value asks, "false" included. */
  function ConfirmFlag(launcher: Dict<string>): (r: Result<bool, LaunchError>)
    ensures r.Err? <==> Find(launcher, "confirm").None?
    ensures r.Err? ==> r.error == MissingConfirm
    ensures r == Ok(false) <==> Find(launcher, "confirm") == Some("")
  {
    match Find(launcher, "confirm")
    case None => Err(MissingConfirm)
    case Some(v) => Ok(v != "")
  }

  /** A configured `confirm: false` is a non-empty string, so it still
      asks; only an empty value skips the prompt. */
  lemma ConfirmIsTruthiness()
    ensures ConfirmFlag([("confirm", "false")]) == Ok(true)
    ensures ConfirmFlag([("confirm", "")]) == Ok(false)
    ensures ConfirmFlag([("preamble", "")]) == Err(MissingConfirm)
  {
  }

  /** A launcher setting after the merge: the command line, then the local
      file, then the packaged default. */
  function MergedLauncherValue(cli: Dict<string>, defaults: ConfigMerge.Layer,
                               local: ConfigMerge.LocalFile, key: string): Option<string>
    requires !defaults.launcher.Missing?
  {
    ConfigMerge.Resolve(cli, ConfigMerge.LocalEntries(ConfigMerge.LocalLayer(local).launcher),
                        ConfigMerge.DefaultEntries(defaults.launcher), key)
  }

  /** Some layer gives at least one script argument. */
  predicate HasScriptArguments(cli: Dict<string>, defaults: ConfigMerge.Layer, local: ConfigMerge.LocalFile)
    requires !defaults.script.Missing?
  {
    ConfigMerge.DefaultEntries(defaults.script) != []
    || ConfigMerge.LocalEntries(ConfigMerge.LocalLayer(local).script) != [] || cli != []
  }

  /** After the merge no script argument has an empty value list, so the
      product has at least one combination. */
  lemma MergedArgumentsHaveCombinations(settings: ConfigMerge.Settings, defaults: ConfigMerge.Layer,
                                        local: ConfigMerge.LocalFile, cli: CliArgs.Parsed)
    requires !defaults.script.Missing? && Distinct(Keys(settings.script))
    requires forall k :: Find(settings.script, k)
               == var v := ConfigMerge.Resolve(cli.script, ConfigMerge.LocalEntries(ConfigMerge.LocalLayer(local).script),
                                               ConfigMerge.DefaultEntries(defaults.script), k);
                  if v.Some? then Some(Split(v.value, ',')) else None
    ensures ScriptGen.ProductSize(Values(settings.script)) >= 1
  {
    var lists := Values(settings.script);
    forall j | 0 <= j < |lists| ensures lists[j] != [] {
      FindAt(settings.script, j);
    }
    ScriptGen.ProductSizeZero(lists);
  }

  /** Lines 46-76 of `main`, with `sys.argv`, the packaged defaults and the
      local file passed in: every exception on the way is routed to its
      error, in the order `main` meets them, and the plan carries the
      truthiness of the merged `confirm` setting. */
  method Prepare(argv: seq<string>, defaults: ConfigMerge.Layer, local: ConfigMerge.LocalFile)
    returns (r: Result<Plan, LaunchError>)
    requires ConfigMerge.WellFormedLayer(defaults) && ConfigMerge.WellFormedLayer(ConfigMerge.LocalLayer(local))
    ensures CliArgs.ParseSpec(argv).Err? ==> r == Err(UsageError(CliArgs.ParseSpec(argv).error))
    ensures |argv| < 2 ==> r == Err(UsageError(CliArgs.MissingModule))
    ensures CliArgs.ParseSpec(argv).Ok? && defaults.slurm.Missing?
            ==> r == Err(ConfigurationError(ConfigMerge.MissingDefaultSection("slurm")))
    ensures CliArgs.ParseSpec(argv).Ok? && !defaults.slurm.Missing? && defaults.script.Missing?
            ==> r == Err(ConfigurationError(ConfigMerge.MissingDefaultSection("script")))
    ensures CliArgs.ParseSpec(argv).Ok? && !defaults.slurm.Missing? && !defaults.script.Missing?
            && defaults.launcher.Missing?
            ==> r == Err(ConfigurationError(ConfigMerge.MissingDefaultSection("launcher")))
    ensures CliArgs.ParseSpec(argv).Ok? && ConfigMerge.DefaultsComplete(defaults) && local.EmptyFile?
            ==> r == Err(ConfigurationError(ConfigMerge.EmptyLocalFile))
    ensures CliArgs.ParseSpec(argv).Ok? && ConfigMerge.DefaultsComplete(defaults) && !local.EmptyFile? ==>
      var cli := CliArgs.ParseSpec(argv).value;
      var args := HasScriptArguments(cli.script, defaults, local);
      var preamble := MergedLauncherValue(cli.launcher, defaults, local, "preamble");
      var cmdPrefix := MergedLauncherValue(cli.launcher, defaults, local, "cmd_prefix");
      var confirm := MergedLauncherValue(cli.launcher, defaults, local, "confirm");
      && (!args ==> r == Err(GenerationError(ScriptGen.NoScriptArguments)))
      && (args && preamble.None? ==> r == Err(GenerationError(ScriptGen.MissingLauncherKey("preamble"))))
      && (args && preamble.Some? && cmdPrefix.None?
          ==> r == Err(GenerationError(ScriptGen.MissingLauncherKey("cmd_prefix"))))
      && (args && preamble.Some? && cmdPrefix.Some? && confirm.None? ==> r == Err(MissingConfirm))
      && (r.Ok? <==> args && preamble.Some? && cmdPrefix.Some? && confirm.Some?)
      && (r.Ok? ==> r.value.confirm == (confirm.value != ""))
    ensures r.Ok? ==> r.value.jobs >= 1 && StartsWith(r.value.script, ScriptGen.Shebang)
    ensures r != Err(GenerationError(ScriptGen.NoCombinations))
  {
    var parsed := CliArgs.ParseArgs(argv);
    if parsed.Err? {
      return Err(UsageError(parsed.error));
    }
    var p := parsed.value;
    var merged := MergeLayers(defaults, local, p);
    if merged.Err? {
      return Err(ConfigurationError(merged.error));
    }
    var settings := merged.value;
    assert CliArgs.ParseSpec(argv).value == p;
    assert settings.script == [] <==> !HasScriptArguments(p.script, defaults, local);
    assert Find(settings.launcher, "preamble") == MergedLauncherValue(p.launcher, defaults, local, "preamble");
    assert Find(settings.launcher, "cmd_prefix") == MergedLauncherValue(p.launcher, defaults, local, "cmd_prefix");
    assert Find(settings.launcher, "confirm") == MergedLauncherValue(p.launcher, defaults, local, "confirm");
    r := PlanSettings(p.moduleName, settings);
  }

  /** Lines 52-71 of `main` as the rest of `main` sees them: the merge's
      errors, whether any script argument is left, that every argument has
      at least one value, and each launcher setting by precedence. */
  method MergeLayers(defaults: ConfigMerge.Layer, local: ConfigMerge.LocalFile, cli: CliArgs.Parsed)
    returns (r: Result<ConfigMerge.Settings, ConfigMerge.ConfigError>)
    requires ConfigMerge.WellFormedLayer(defaults) && ConfigMerge.WellFormedLayer(ConfigMerge.LocalLayer(local))
    requires ConfigMerge.WellFormedOverrides(cli)
    ensures defaults.slurm.Missing? ==> r == Err(ConfigMerge.MissingDefaultSection("slurm"))
    ensures !defaults.slurm.Missing? && defaults.script.Missing? ==> r == Err(ConfigMerge.MissingDefaultSection("script"))
    ensures !defaults.slurm.Missing? && !defaults.script.Missing? && defaults.launcher.Missing?
            ==> r == Err(ConfigMerge.MissingDefaultSection("launcher"))
    ensures ConfigMerge.DefaultsComplete(defaults) && local.EmptyFile? ==> r == Err(ConfigMerge.EmptyLocalFile)
    ensures r.Ok? <==> ConfigMerge.DefaultsComplete(defaults) && !local.EmptyFile?
    ensures r.Ok? ==>
      && (r.value.script == [] <==> !HasScriptArguments(cli.script, defaults, local))
      && ScriptGen.ProductSize(Values(r.value.script)) >= 1
      && (forall k :: Find(r.value.launcher, k) == MergedLauncherValue(cli.launcher, defaults, local, k))
  {
    r := ConfigMerge.Merge(defaults, local, cli);
    if r.Ok? {
      var settings := r.value;
      var file := ConfigMerge.LocalLayer(local);
      DedupEmpty(Keys(ConfigMerge.DefaultEntries(defaults.script))
                 + Keys(ConfigMerge.LocalEntries(file.script)) + Keys(cli.script));
      DedupDistinct(Keys(ConfigMerge.DefaultEntries(defaults.script))
                    + Keys(ConfigMerge.LocalEntries(file.script)) + Keys(cli.script));
      MergedArgumentsHaveCombinations(settings, defaults, local, cli);
    }
  }

  /** Lines 73-76 of `main` on the merged settings: generate the script,
      then read `confirm`. */
  method PlanSettings(moduleName: string, settings: ConfigMerge.Settings) returns (r: Result<Plan, LaunchError>)
    ensures settings.script == [] ==> r == Err(GenerationError(ScriptGen.NoScriptArguments))
    ensures settings.script != [] && Find(settings.launcher, "preamble").None?
            ==> r == Err(GenerationError(ScriptGen.MissingLauncherKey("preamble")))
    ensures settings.script != [] && Find(settings.launcher, "preamble").Some?
            && Find(settings.launcher, "cmd_prefix").None?
            ==> r == Err(GenerationError(ScriptGen.MissingLauncherKey("cmd_prefix")))
    ensures settings.script != [] && Find(settings.launcher, "preamble").Some?
            && Find(settings.launcher, "cmd_prefix").Some? && ScriptGen.ProductSize(Values(settings.script)) == 0
            ==> r == Err(GenerationError(ScriptGen.NoCombinations))
    ensures settings.script != [] && Find(settings.launcher, "preamble").Some?
            && Find(settings.launcher, "cmd_prefix").Some? && ScriptGen.ProductSize(Values(settings.script)) >= 1
            && Find(settings.launcher, "confirm").None?
            ==> r == Err(MissingConfirm)
    ensures r.Ok? <==> settings.script != [] && Find(settings.launcher, "preamble").Some?
                       && Find(settings.launcher, "cmd_prefix").Some?
                       && ScriptGen.ProductSize(Values(settings.script)) >= 1
                       && Find(settings.launcher, "confirm").Some?
    ensures r.Ok? ==>
      && r.value.jobs == ScriptGen.ProductSize(Values(settings.script)) >= 1
      && r.value.script == JoinWith("\n", ScriptGen.ScriptLines(moduleName, settings.slurm,
                                      ScriptGen.Combinations(settings.script),
                                      Find(settings.launcher, "preamble").value,
                                      Find(settings.launcher, "cmd_prefix").value))
      && StartsWith(r.value.script, ScriptGen.Shebang)
      && r.value.confirm == (Find(settings.launcher, "confirm").value != "")
  {
    var generated := ScriptGen.GenerateScript(moduleName, settings.script, settings.slurm, settings.launcher);
    if generated.Err? {
      return Err(GenerationError(generated.error));
    }
    var confirm := ConfirmFlag(settings.launcher);
    if confirm.Err? {
      return Err(confirm.error);
    }
    var combos := ScriptGen.Combinations(settings.script);
    var preamble, cmdPrefix := Find(settings.launcher, "preamble").value, Find(settings.launcher, "cmd_prefix").value;
    ScriptGen.ScriptHeader(moduleName, settings.slurm, combos, preamble, cmdPrefix);
    JoinStartsWithFirst("\n", ScriptGen.ScriptLines(moduleName, settings.slurm, combos, preamble, cmdPrefix));
    r := Ok(Plan(generated.value.0, generated.value.1, confirm.value));
  }
}
