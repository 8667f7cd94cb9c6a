# slurm_launcher in Dafny

A model of the core of `slurm_launcher`, a command-line tool that writes a
Slurm batch script and submits it with `sbatch`. It is invoked as
`slurm <module> [--key value [value ...]]*`. The model covers three parts of
`src/slurm_launcher/slurm.py`:

- **`parse_args`**: a token loop with an open key. `--slurm.K v` sets the
  scheduler override `K`. `--launcher.K v` sets the launcher override `K`.
  Every other `--K v1 v2 ...` collects script argument `K`, and its values
  are joined with one space.
- **The merge in `main`** (lines 52-71): the packaged defaults, then the
  local `slurm.yaml`, then the command-line overrides, applied section by
  section with `dict.update`. Each merged script argument is then split on
  `,`.
- **`generate_slurm_script`**: the shebang, one `#SBATCH --k=v` line per
  scheduler setting, and the cartesian product of the value lists. One
  combination gives one invocation line. More than one gives a job array:
  an `--array=0-(n-1)` directive, a `PARAMS_ARRAY=( ... )` literal and an
  invocation indexed by `$SLURM_ARRAY_TASK_ID`.

Python dictionaries keep insertion order, and the order matters for the
output. The order of the `#SBATCH` lines, the order of the `--k v` pairs and
the enumeration order of the product all follow it. So a dictionary is a
sequence of key/value pairs (`Dicts.Dict`), not a Dafny `map`:

- assigning to a key that exists keeps that key's position;
- a new key is appended;
- `update` is a fold of assignments.

Modules:

| file | module | what it holds |
|---|---|---|
| wrappers.dfy | `Wrappers` | `Option` and `Result` |
| strings.dfy | `Strings` | `startswith`, `join`, `split`, `str(n)`, ASCII `lower` |
| dicts.dfy | `Dicts` | insertion-ordered dictionaries, `d[k] = v`, `update`, the loop that rewrites every value |
| cli_args.dfy | `CliArgs` | `parse_args` as a loop (`ParseArgs`), proved equal to a fold of one-token steps (`Run`), and the properties of that fold |
| config_merge.dfy | `ConfigMerge` | the three-layer merge and the comma split |
| script_gen.dfy | `ScriptGen` | the product, the combinations, the rendering loops and `generate_slurm_script` |
| launcher.dfy | `Launcher` | `main` up to the confirmation prompt, and how the prompt's answer is read |

Four behaviours of the code that are easy to misread, each modelled as the
code has it:

- A bare value is rejected only while no key is open, which means only as
  the first token after the module. After any `--key`, every non-flag token
  is a value.
- A section missing from the packaged defaults raises `KeyError`. Only an
  empty section value counts as an empty section.
- With no script arguments at all, `zip(*args.items())` raises, so this is
  an error (`NoScriptArguments`).
- A missing `preamble` or `cmd_prefix` raises `KeyError`, modelled as
  `MissingLauncherKey`. A missing `confirm` is modelled as `MissingConfirm`.

Exceptions the code raises become `Err` values.

## Model

| member | source | states |
|---|---|---|
| `CliArgs.ParseArgs` | src/slurm_launcher/slurm.py:10-43 | the popping loop with in-place dictionary updates returns exactly `ParseSpec(argv)`; a successful parse has distinct keys in all three dictionaries and no override value starting with `--` |
| `CliArgs.Step` | src/slurm_launcher/slurm.py:21-38 | one token keeps the loop invariant: an open script key has an entry, keys stay distinct, override values are never flags |
| `CliArgs.Run` | src/slurm_launcher/slurm.py:20-38 | every state the loop reaches satisfies that invariant |
| `CliArgs.ParseErrors` | src/slurm_launcher/slurm.py:11-27 | parsing fails exactly when no module is given (`MissingModule`) or when the first token after the module is not a `--` flag (`InvalidArgument` of that token) |
| `CliArgs.RunFails` | src/slurm_launcher/slurm.py:20-26 | the loop fails exactly when its first token is not a flag, and names that token |
| `CliArgs.RunCurrent` | src/slurm_launcher/slurm.py:22-27 | after any run of the loop, the open key is the key of the last flag seen, or none before the first flag |
| `CliArgs.OverrideLastValue` | src/slurm_launcher/slurm.py:31-36 | the last value given while `--slurm.K` (or `--launcher.K`) is open is override `K`: later values overwrite earlier ones |
| `CliArgs.OverrideAbsent` | src/slurm_launcher/slurm.py:31-36 | an override key that received no value is not set |
| `CliArgs.ScriptArgumentValue` | src/slurm_launcher/slurm.py:27-41 | script argument `K` is the values between its last `--K` and the next flag, joined with one space: re-opening a key restarts its values, and a key with no values is the empty string |
| `CliArgs.ScriptArgumentAbsent` | src/slurm_launcher/slurm.py:28-29 | a key that no flag opens is not a script argument |
| `CliArgs.ScriptReopenRun` | src/slurm_launcher/slurm.py:27-38 | in the loop state, the list for a script key after its last opening holds the values after it, and the key stays open exactly while no flag follows |
| `CliArgs.ScriptAbsentRun` | src/slurm_launcher/slurm.py:28-38 | in the loop state, a key no flag opens has no list and is never the open key |
| `CliArgs.ScriptKeyOrder` | src/slurm_launcher/slurm.py:28-29 | script keys are ordered by their first opening flag; keys with a `slurm.`/`launcher.` prefix never become script arguments |
| `CliArgs.OverrideKeyOrder` | src/slurm_launcher/slurm.py:31-36 | override keys are ordered by their first value |
| `CliArgs.ParsedKeyOrder` | src/slurm_launcher/slurm.py:27-43 | in the three dictionaries `parse_args` returns, script keys are ordered by their first opening flag and override keys by their first value |
| `CliArgs.StepOverride` | src/slurm_launcher/slurm.py:31-36 | one token sets an override only if it is a value and that override's key is open; nothing else changes it |
| `CliArgs.StepScript` | src/slurm_launcher/slurm.py:27-38 | one token resets a script list when it is that key's flag, appends to it when it is a value with that key open, and otherwise leaves it alone |
| `Dicts.PutFind` | src/slurm_launcher/slurm.py:33 | after `d[k] = v`, `k` finds `v` and every other key finds what it found before |
| `Dicts.PutKeys` | src/slurm_launcher/slurm.py:29 | `d[k] = v` keeps the key order when `k` exists and appends `k` otherwise |
| `Dicts.UpdateFind` | src/slurm_launcher/slurm.py:62-68 | after `d.update(e)`, a key of `e` has its value from `e` and every other key keeps its value from `d` |
| `Dicts.UpdateKeys` | src/slurm_launcher/slurm.py:62-68 | `d.update(e)` keeps the keys of `d` in place and appends the new keys of `e` in `e`'s order |
| `Dicts.ConvertValues` | src/slurm_launcher/slurm.py:70-71 | the loop that rewrites every value keeps the keys and their order and applies the conversion to each value |
| `Dicts.MapValuesKeys` | src/slurm_launcher/slurm.py:70-71 | rewriting every value keeps the keys and their order |
| `Dicts.MapValuesFind` | src/slurm_launcher/slurm.py:40-41 | after the rewrite, each key finds the converted form of its old value |
| `Strings.Split` | src/slurm_launcher/slurm.py:71 | `str.split` on one separator always yields at least one piece |
| `Strings.JoinOfSplit` | src/slurm_launcher/slurm.py:71 | joining the pieces of a split with the separator gives back the original string |
| `Strings.SplitOfJoin` | src/slurm_launcher/slurm.py:71 | splitting the join of a non-empty list of separator-free pieces gives back the pieces |
| `Strings.SplitOfEmptyJoin` | src/slurm_launcher/slurm.py:71 | the exception: the empty list joins to `""`, which splits into `[""]`, not `[]` |
| `Strings.Decimal` | src/slurm_launcher/slurm.py:107 | `str(n)`: at least one digit, only digits, a leading `0` only for 0 itself, and one digit exactly below 10 |
| `Strings.DecimalRoundTrip` | src/slurm_launcher/slurm.py:107 | the decimal text of a job index reads back as that index |
| `ConfigMerge.Overlay` | src/slurm_launcher/slurm.py:62-68 | after two updates, each key resolves to its command-line value if present, else its file value, else its default; keys are in order of first appearance across the layers |
| `ConfigMerge.Merge` | src/slurm_launcher/slurm.py:52-71 | the merge fails on a missing default section (the first one in order) or an empty local file, and on nothing else. Otherwise every key of every section resolves by precedence (command line, file, default) and no other key appears. Keys keep first-insertion order, each script argument becomes its merged string split on `,`, and with no file and no overrides the defaults pass through unchanged |
| `ConfigMerge.SplitArgument` | src/slurm_launcher/slurm.py:70-71 | a merged script argument splits into a non-empty list of comma-free values that joined with `,` give the argument back |
| `ConfigMerge.SplitOfJoinedValues` | src/slurm_launcher/slurm.py:71 | a non-empty list of comma-free values joined with `,` splits back into the same list (the empty list does not: it joins to `""`, which splits into `[""]`) |
| `ScriptGen.Product` | src/slurm_launcher/slurm.py:104 | the number of combinations is the product of the value-list lengths |
| `ScriptGen.ProductOrder` | src/slurm_launcher/slurm.py:104 | combination `a*T+b` is element `a` of the first list followed by combination `b` of the rest: the first key is the outermost loop and the last key varies fastest |
| `ScriptGen.ProductChoices` | src/slurm_launcher/slurm.py:104 | every combination takes exactly one element from each list, in key order |
| `ScriptGen.ProductComplete` | src/slurm_launcher/slurm.py:104 | every choice of one element per list is a combination |
| `ScriptGen.ProductSizeZero` | src/slurm_launcher/slurm.py:104 | there are no combinations exactly when some value list is empty |
| `ScriptGen.PrependAt` | src/slurm_launcher/slurm.py:104 | one level of the product: head `a` with tail `b` sits at position `a*T+b` |
| `ScriptGen.CombinationShape` | src/slurm_launcher/slurm.py:103-104 | each combination has every script key, in the arguments' order, mapped to one of that key's values |
| `ScriptGen.ScriptHeader` | src/slurm_launcher/slurm.py:99-101 | the script starts with `#!/bin/bash`, then one `#SBATCH --key=value` line per scheduler setting, in order, with the value copied verbatim |
| `ScriptGen.JobArrayLayout` | src/slurm_launcher/slurm.py:106-121 | with n > 1 combinations the script has `#SBATCH --array=0-(n-1)`, `PARAMS_ARRAY=(`, exactly n quoted `--k v` strings in combination order, `)`, the preamble, and `cmd_prefix + module + " ${PARAMS_ARRAY[$SLURM_ARRAY_TASK_ID]}"` |
| `ScriptGen.SingleJobLayout` | src/slurm_launcher/slurm.py:122-128 | with one combination there is no array directive: the preamble after a newline, then `cmd_prefix + module + " "` followed by the combination's `--k v` pairs |
| `ScriptGen.RenderLines` | src/slurm_launcher/slurm.py:99-128 | the line-appending loops produce exactly `ScriptLines`, the layout the three lemmas above describe |
| `ScriptGen.GenerateScript` | src/slurm_launcher/slurm.py:98-130 | fails on an empty argument dictionary, then on a missing `preamble`, then on a missing `cmd_prefix`, then on zero combinations, and on nothing else. Otherwise it returns the lines joined with `\n` and the number of combinations |
| `Launcher.Prepare` | src/slurm_launcher/slurm.py:46-76 | every exception `main` can meet before the prompt becomes its error, in the order `main` meets them. A parse error comes first, then a missing default section, then an empty local file. Then come no script argument in any layer, a missing merged `preamble`, then `cmd_prefix`, then `confirm`, and there is no other failure. A plan has at least one job, a script starting with the shebang, and asks for confirmation exactly when the merged `confirm` is non-empty. The zero-combination error cannot occur |
| `Launcher.MergeLayers` | src/slurm_launcher/slurm.py:52-71 | the merge's errors, and what the rest of `main` relies on. The merged arguments are empty exactly when no layer gives one, every argument has at least one value, and each launcher setting resolves by precedence |
| `Launcher.PlanSettings` | src/slurm_launcher/slurm.py:73-76 | on merged settings, the generator's errors come first, in order, then a missing `confirm`. Otherwise the plan holds the generated script text, the number of combinations as the job count, and the truthiness of `confirm` |
| `Launcher.ConfirmFlag` | src/slurm_launcher/slurm.py:76 | `launch_args["confirm"]` fails exactly when the key is missing. The prompt is skipped exactly when the value is the empty string, so `"false"` still prompts |
| `Launcher.ConfirmIsTruthiness` | src/slurm_launcher/slurm.py:76 | `confirm: "false"` asks, `confirm: ""` does not, and no `confirm` key is an error |
| `Launcher.Classify` | src/slurm_launcher/slurm.py:80-84 | the lower-cased answer `y`, `yes` or empty proceeds, `n` or `no` aborts, and any other answer asks again |
| `Launcher.MergedArgumentsHaveCombinations` | src/slurm_launcher/slurm.py:70-74 | since a split is never empty, merged script arguments always give at least one combination |
| `Launcher.ClassifyIgnoresCase` | src/slurm_launcher/slurm.py:80-82 | the answer to the confirmation prompt is read without regard to case |
| `Launcher.ClassifyExamples` | src/slurm_launcher/slurm.py:80-85 | `""`, `y` and `Yes` proceed, `n` and `No` abort, `maybe` asks again |
| `Strings.LowerIdempotent` | src/slurm_launcher/slurm.py:80 | lower-casing twice is the same as lower-casing once |

## Left out

- YAML and file access (`pkgutil.get_data`, `yaml.load`, `os.path.exists`, `open`, lines 49-51 and 56-61) are not modelled. The packaged defaults and the local file are passed in as already-loaded layers. A section is absent, an empty value or a flat string-to-string mapping. Sections that YAML loads as lists, non-empty scalars or nested mappings are not modelled.
- The `assert data is not None` on the packaged defaults (line 50) is not modelled: the defaults are a parameter.
- Reading `sys.argv` is replaced by an argument vector parameter.
- The assertions at lines 11 and 23 are modelled as errors, that is, as Python runs without `-O`. The message text of each exception is not modelled.
- The confirmation loop's terminal I/O (`print`, `input`, lines 76-85) is left out. Only the answer classification (`Launcher.Classify`) and the truthiness of `confirm` (`Launcher.ConfirmFlag`) are modelled.
- Submission (`tempfile.NamedTemporaryFile`, `subprocess.run(["sbatch", ...])`, printing its output, lines 87-95) is left out: it is operating-system and process plumbing.
- Strings.Lower: lower-cases ASCII letters only, while Python's `str.lower` also folds non-ASCII letters. So answers with non-ASCII letters may be classified differently than in the source.
- Launcher.Prepare: states the script text only through its shebang prefix, and the job count only as at least one. Their exact values are stated on the merged settings, by `Launcher.PlanSettings`, `ScriptGen.GenerateScript` and the layout lemmas.
