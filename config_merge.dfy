/** The merge in `main`: packaged defaults, overlaid by the local
    configuration file, overlaid by the command-line overrides, section by
    section; then every script argument is split on commas into the list
    of values it stands for. */
module ConfigMerge {
  import opened Wrappers
  import opened Strings
  import opened Dicts
  import CliArgs

  /** A top-level section of a configuration as YAML's base loader gives it
      (no type conversion): absent, an empty value (the empty string), or a
      flat mapping of strings to strings. */
  datatype Section = Missing | Blank | Entries(entries: Dict<string>)

  datatype Layer = Layer(slurm: Section, script: Section, launcher: Section)

  /** The local `slurm.yaml`: not there, there but empty (it loads as no
      document), or a loaded layer. */
  datatype LocalFile = NoFile | EmptyFile | Loaded(layer: Layer)

  /** The merged settings handed to the script generator. */
  datatype Settings = Settings(slurm: Dict<string>, script: Dict<seq<string>>, launcher: Dict<string>)

  datatype ConfigError =
    | MissingDefaultSection(name: string)  // `default_cfg[name]` raises
    | EmptyLocalFile                       // `cfg.get` on no document raises

  predicate WellFormedSection(s: Section)
  {
    s.Entries? ==> Distinct(Keys(s.entries))
  }

  predicate WellFormedLayer(l: Layer)
  {
    WellFormedSection(l.slurm) && WellFormedSection(l.script) && WellFormedSection(l.launcher)
  }

  /** The overrides `parse_args` returns repeat no key. */
  predicate WellFormedOverrides(o: CliArgs.Parsed)
  {
    Distinct(Keys(o.slurm)) && Distinct(Keys(o.script)) && Distinct(Keys(o.launcher))
  }

  predicate DefaultsComplete(defaults: Layer)
  {
    !defaults.slurm.Missing? && !defaults.script.Missing? && !defaults.launcher.Missing?
  }

  /** `default_cfg[name] or {}`: an empty value counts as no entries. */
  function DefaultEntries(s: Section): Dict<string>
    requires !s.Missing?
  {
    if s.Entries? then s.entries else []
  }

  /** What `update(cfg.get(name, {}))` adds: nothing for an absent section
      or an empty value. */
  function LocalEntries(s: Section): Dict<string>
  {
    if s.Entries? then s.entries else []
  }

  /** The local layer; with no file every section is absent. */
  function LocalLayer(local: LocalFile): Layer
  {
    if local.Loaded? then local.layer else Layer(Missing, Missing, Missing)
  }

  /** Precedence of the three layers for one key: the command line, then
      the local file, then the packaged default. */
  function Resolve(cli: Dict<string>, file: Dict<string>, base: Dict<string>, k: string): Option<string>
  {
    if Find(cli, k).Some? then Find(cli, k)
    else if Find(file, k).Some? then Find(file, k)
    else Find(base, k)
  }

  function SplitComma(value: string): seq<string>
  {
    Split(value, ',')
  }

  /** Two `update` calls in a row: the keys in order of first appearance
      across the layers, each resolved by precedence. */
  lemma Overlay(base: Dict<string>, file: Dict<string>, cli: Dict<string>)
    requires Distinct(Keys(base)) && Distinct(Keys(file)) && Distinct(Keys(cli))
    ensures Distinct(Keys(Update(Update(base, file), cli)))
    ensures Keys(Update(Update(base, file), cli)) == Dedup(Keys(base) + Keys(file) + Keys(cli))
    ensures forall k :: Find(Update(Update(base, file), cli), k) == Resolve(cli, file, base, k)
  {
    UpdateKeys(base, file);
    UpdateDistinct(base, file);
    UpdateKeys(Update(base, file), cli);
    UpdateDistinct(Update(base, file), cli);
    DedupOfDedupPrefix(Keys(base) + Keys(file), Keys(cli));
    forall k ensures Find(Update(Update(base, file), cli), k) == Resolve(cli, file, base, k) {
      UpdateFind(base, file, k);
      UpdateFind(Update(base, file), cli, k);
    }
  }

  /** Lines 52-71 of `main`, with the YAML loading replaced by the loaded
      layers: the defaults' sections, `update` with the local file's
      sections when the file exists, `update` with the command-line
      overrides, and the loop that splits every script argument on `,`. */
  method Merge(defaults: Layer, local: LocalFile, cli: CliArgs.Parsed) returns (r: Result<Settings, ConfigError>)
    requires WellFormedLayer(defaults) && WellFormedLayer(LocalLayer(local)) && WellFormedOverrides(cli)
    ensures defaults.slurm.Missing? ==> r == Err(MissingDefaultSection("slurm"))
    ensures !defaults.slurm.Missing? && defaults.script.Missing? ==> r == Err(MissingDefaultSection("script"))
    ensures !defaults.slurm.Missing? && !defaults.script.Missing? && defaults.launcher.Missing?
            ==> r == Err(MissingDefaultSection("launcher"))
    ensures DefaultsComplete(defaults) && local.EmptyFile? ==> r == Err(EmptyLocalFile)
    ensures r.Ok? <==> DefaultsComplete(defaults) && !local.EmptyFile?
    ensures r.Ok? ==>
      var file := LocalLayer(local);
      var s := r.value;
      && Keys(s.slurm) == Dedup(Keys(DefaultEntries(defaults.slurm)) + Keys(LocalEntries(file.slurm)) + Keys(cli.slurm))
      && Keys(s.script) == Dedup(Keys(DefaultEntries(defaults.script)) + Keys(LocalEntries(file.script)) + Keys(cli.script))
      && Keys(s.launcher) == Dedup(Keys(DefaultEntries(defaults.launcher)) + Keys(LocalEntries(file.launcher)) + Keys(cli.launcher))
      && (forall k :: Find(s.slurm, k)
            == Resolve(cli.slurm, LocalEntries(file.slurm), DefaultEntries(defaults.slurm), k))
      && (forall k :: Find(s.launcher, k)
            == Resolve(cli.launcher, LocalEntries(file.launcher), DefaultEntries(defaults.launcher), k))
      && (forall k :: Find(s.script, k)
            == var v := Resolve(cli.script, LocalEntries(file.script), DefaultEntries(defaults.script), k);
               if v.Some? then Some(Split(v.value, ',')) else None)
    ensures r.Ok? && local.NoFile? && cli.slurm == [] ==> r.value.slurm == DefaultEntries(defaults.slurm)
    ensures r.Ok? && local.NoFile? && cli.launcher == [] ==> r.value.launcher == DefaultEntries(defaults.launcher)
  {
    if defaults.slurm.Missing? {
      return Err(MissingDefaultSection("slurm"));
    }
    var slurm := DefaultEntries(defaults.slurm);
    if defaults.script.Missing? {
      return Err(MissingDefaultSection("script"));
    }
    var script := DefaultEntries(defaults.script);
    if defaults.launcher.Missing? {
      return Err(MissingDefaultSection("launcher"));
    }
    var launcher := DefaultEntries(defaults.launcher);

    if local.EmptyFile? {
      return Err(EmptyLocalFile);
    }
    if local.Loaded? {
      slurm := Update(slurm, LocalEntries(local.layer.slurm));
      script := Update(script, LocalEntries(local.layer.script));
      launcher := Update(launcher, LocalEntries(local.layer.launcher));
    }

    slurm := Update(slurm, cli.slurm);
    script := Update(script, cli.script);
    launcher := Update(launcher, cli.launcher);

    var lists := ConvertValues(script, SplitComma);

    var file := LocalLayer(local);
    Overlay(DefaultEntries(defaults.slurm), LocalEntries(file.slurm), cli.slurm);
    Overlay(DefaultEntries(defaults.script), LocalEntries(file.script), cli.script);
    Overlay(DefaultEntries(defaults.launcher), LocalEntries(file.launcher), cli.launcher);
    forall k
      ensures Find(lists, k)
        == var v := Resolve(cli.script, LocalEntries(file.script), DefaultEntries(defaults.script), k);
           if v.Some? then Some(Split(v.value, ',')) else None
    {
      MapValuesFind(script, SplitComma, k);
    }
    MapValuesKeys(script, SplitComma);
    r := Ok(Settings(slurm, lists, launcher));
  }

  /** Every merged script argument splits into at least one value, and
      joining the values with `,` gives the merged string back. */
  lemma SplitArgument(value: string)
    ensures |SplitComma(value)| >= 1
    ensures JoinWith(",", SplitComma(value)) == value
    ensures forall piece :: piece in SplitComma(value) ==> ',' !in piece
  {
    JoinOfSplit(value, ',');
    SplitPiecesFree(value, ',');
  }

  /** A list of comma-free values survives a join with `,` and a split. */
  lemma SplitOfJoinedValues(values: seq<string>)
    requires |values| >= 1 && forall v :: v in values ==> ',' !in v
    ensures SplitComma(JoinWith(",", values)) == values
  {
    SplitOfJoin(values, ',');
  }
}
