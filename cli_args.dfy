/** The command-line parser `parse_args`: after the program name comes the
    module to run, then groups `--key value ...`. Keys starting `slurm.`
    and `launcher.` set scheduler and launcher overrides, every other key
    collects script arguments. */
module CliArgs {
  import opened Wrappers
  import opened Strings
  import opened Dicts

  const SlurmPrefix := "slurm."
  const LauncherPrefix := "launcher."

  predicate IsFlag(token: string)
  {
    StartsWith(token, "--")
  }

  /** The key a flag opens: the flag without its leading `--`. */
  function FlagKey(token: string): string
    requires IsFlag(token)
  {
    token[2..]
  }

  predicate IsRouted(key: string)
  {
    StartsWith(key, SlurmPrefix) || StartsWith(key, LauncherPrefix)
  }

  predicate NoFlags(tokens: seq<string>)
  {
    forall i :: 0 <= i < |tokens| ==> !IsFlag(tokens[i])
  }

  datatype ParseError =
    | MissingModule               // no module after the program name
    | InvalidArgument(token: string)  // a value where a `--key` was expected

  /** The parser loop's variables: the open key and the three dictionaries
      it fills; a script key collects a list of values. */
  datatype State = State(
    current: Option<string>,
    slurm: Dict<string>,
    script: Dict<seq<string>>,
    launcher: Dict<string>)

  /** What `parse_args` returns. */
  datatype Parsed = Parsed(
    moduleName: string,
    script: Dict<string>,
    slurm: Dict<string>,
    launcher: Dict<string>)

  /** The two override dictionaries, named by the prefix that routes to them. */
  datatype OverrideGroup = SlurmGroup | LauncherGroup

  function Prefix(group: OverrideGroup): string
  {
    match group
    case SlurmGroup => SlurmPrefix
    case LauncherGroup => LauncherPrefix
  }

  function Overrides(st: State, group: OverrideGroup): Dict<string>
  {
    match group
    case SlurmGroup => st.slurm
    case LauncherGroup => st.launcher
  }

  const Initial := State(None, [], [], [])

  /** What the loop keeps true: an open script key has an entry, no
      dictionary repeats a key, and no override value is a flag. */
  predicate Valid(st: State)
  {
    && (st.current.Some? && !IsRouted(st.current.value) ==> Find(st.script, st.current.value).Some?)
    && Distinct(Keys(st.slurm)) && Distinct(Keys(st.script)) && Distinct(Keys(st.launcher))
    && NoFlags(Values(st.slurm)) && NoFlags(Values(st.launcher))
  }

  /** One iteration of the loop, on the token just popped. */
  function Step(st: State, token: string): (r: Result<State, ParseError>)
    requires Valid(st)
    ensures r.Ok? ==> Valid(r.value)
  {
    if st.current.None? || IsFlag(token) then
      if !IsFlag(token) then Err(InvalidArgument(token))
      else
        var key := FlagKey(token);
        if IsRouted(key) then Ok(st.(current := Some(key)))
        else
          PutFind(st.script, key, [], key);
          PutDistinct(st.script, key, []);
          Ok(st.(current := Some(key), script := Put(st.script, key, [])))
    else
      var key := st.current.value;
      if StartsWith(key, SlurmPrefix) then
        PutDistinct(st.slurm, key[6..], token);
        PutKeepsNoFlags(st.slurm, key[6..], token);
        Ok(st.(slurm := Put(st.slurm, key[6..], token)))
      else if StartsWith(key, LauncherPrefix) then
        PutDistinct(st.launcher, key[9..], token);
        PutKeepsNoFlags(st.launcher, key[9..], token);
        Ok(st.(launcher := Put(st.launcher, key[9..], token)))
      else
        var values := Find(st.script, key).value + [token];
        PutFind(st.script, key, values, key);
        PutDistinct(st.script, key, values);
        Ok(st.(script := Put(st.script, key, values)))
  }

  /** The loop run over `tokens` from the start, stopping at the first error. */
  function Run(tokens: seq<string>): (r: Result<State, ParseError>)
    ensures r.Ok? ==> Valid(r.value)
  {
    if tokens == [] then Ok(Initial)
    else
      match Run(tokens[..|tokens| - 1])
      case Err(e) => Err(e)
      case Ok(st) => Step(st, tokens[|tokens| - 1])
  }

  function JoinSpace(values: seq<string>): string
  {
    JoinWith(" ", values)
  }

  /** The parse of the tokens after the module: the loop, then every script
      key's values joined with one space. */
  function ParseTokens(moduleName: string, tokens: seq<string>): Result<Parsed, ParseError>
  {
    match Run(tokens)
    case Err(e) => Err(e)
    case Ok(st) => Ok(Parsed(moduleName, MapValues(st.script, JoinSpace), st.slurm, st.launcher))
  }

  /** The parse of the whole argument vector, program name first. */
  function ParseSpec(argv: seq<string>): Result<Parsed, ParseError>
  {
    if |argv| < 2 then Err(MissingModule) else ParseTokens(argv[1], argv[2..])
  }

  /** One more token runs one more step, unless the loop already stopped. */
  lemma RunSnoc(tokens: seq<string>, x: string)
    ensures Run(tokens + [x]) == if Run(tokens).Err? then Run(tokens) else Step(Run(tokens).value, x)
  {
    assert (tokens + [x])[..|tokens|] == tokens;
  }

  lemma SliceSnoc(p: seq<string>, x: string, i: nat)
    requires i <= |p|
    ensures (p + [x])[i..] == p[i..] + [x]
  {
  }

  lemma SliceExtend(s: seq<string>, a: nat, b: nat)
    requires a <= b < |s|
    ensures s[a..b + 1] == s[a..b] + [s[b]]
  {
  }

  /** `parse_args`, with `sys.argv` passed in: pops tokens off the front of
      the argument list and fills the three dictionaries in place. */
  method ParseArgs(argv: seq<string>) returns (r: Result<Parsed, ParseError>)
    ensures r == ParseSpec(argv)
    ensures r.Ok? ==> Distinct(Keys(r.value.script)) && Distinct(Keys(r.value.slurm))
                      && Distinct(Keys(r.value.launcher))
    ensures r.Ok? ==> NoFlags(Values(r.value.slurm)) && NoFlags(Values(r.value.launcher))
  {
    if |argv| <= 1 {
      return Err(MissingModule);
    }
    var moduleName := argv[1];
    var args := argv[2..];
    var slurm: Dict<string> := [];
    var script: Dict<seq<string>> := [];
    var launcher: Dict<string> := [];
    var current: Option<string> := None;
    ghost var i := 2;
    while args != []
      invariant 2 <= i <= |argv| && args == argv[i..]
      invariant Run(argv[2..i]) == Ok(State(current, slurm, script, launcher))
      decreases |args|
    {
      var next := args[0];
      args := args[1..];
      SliceExtend(argv, 2, i);
      RunSnoc(argv[2..i], next);
      if current.None? || IsFlag(next) {
        if !IsFlag(next) {
          RunFails(argv[2..i + 1]);
          RunFails(argv[2..]);
          return Err(InvalidArgument(next));
        }
        current := Some(next[2..]);
        if !IsRouted(current.value) {
          script := Put(script, current.value, []);
        }
      } else if StartsWith(current.value, SlurmPrefix) {
        slurm := Put(slurm, current.value[6..], next);
      } else if StartsWith(current.value, LauncherPrefix) {
        launcher := Put(launcher, current.value[9..], next);
      } else {
        script := Put(script, current.value, Find(script, current.value).value + [next]);
      }
      i := i + 1;
    }
    assert argv[2..i] == argv[2..];
    var joined := ConvertValues(script, JoinSpace);
    MapValuesKeys(script, JoinSpace);
    r := Ok(Parsed(moduleName, joined, slurm, launcher));
  }

  // ---------------------------------------------------------------------
  // Reference descriptions of the token list, independent of the loop.

  /** The key opened by the last flag among `tokens`, if any. */
  function OpenKey(tokens: seq<string>): Option<string>
  {
    if tokens == [] then None
    else if IsFlag(tokens[|tokens| - 1]) then Some(FlagKey(tokens[|tokens| - 1]))
    else OpenKey(tokens[..|tokens| - 1])
  }

  /** `tokens[i]` is a value given to `key`: it is not a flag and `key` is
      the key the flags before it left open. */
  predicate IsValueOf(tokens: seq<string>, i: nat, key: string)
    requires i < |tokens|
  {
    !IsFlag(tokens[i]) && OpenKey(tokens[..i]) == Some(key)
  }

  /** The values at the front of `tokens`, up to the first flag. */
  function LeadingValues(tokens: seq<string>): seq<string>
  {
    if tokens == [] || IsFlag(tokens[0]) then [] else [tokens[0]] + LeadingValues(tokens[1..])
  }

  /** The script keys the flags of `tokens` open, in order, repeats included. */
  function OpenedScriptKeys(tokens: seq<string>): seq<string>
  {
    if tokens == [] then []
    else
      var x := tokens[|tokens| - 1];
      OpenedScriptKeys(tokens[..|tokens| - 1])
        + if IsFlag(x) && !IsRouted(FlagKey(x)) then [FlagKey(x)] else []
  }

  /** The override keys of section `group` that receive values, in the order
      of the values, repeats included. */
  function ValueKeys(tokens: seq<string>, group: OverrideGroup): seq<string>
  {
    if tokens == [] then []
    else
      var p, x := tokens[..|tokens| - 1], tokens[|tokens| - 1];
      ValueKeys(p, group)
        + if !IsFlag(x) && OpenKey(p).Some? && StartsWith(OpenKey(p).value, Prefix(group))
          then [OpenKey(p).value[|Prefix(group)|..]] else []
  }

  // ---------------------------------------------------------------------
  // Small facts about flags and prefixes.

  lemma FlagOfKey(k: string)
    ensures IsFlag("--" + k) && FlagKey("--" + k) == k
  {
    assert ("--" + k)[..2] == "--";
  }

  lemma FlagRebuilt(x: string)
    requires IsFlag(x)
    ensures x == "--" + FlagKey(x)
  {
    assert x == x[..2] + x[2..];
  }

  lemma PrefixedKey(c: string, p: string, k: string)
    ensures c == p + k <==> StartsWith(c, p) && c[|p|..] == k
  {
    if c == p + k {
      assert c[..|p|] == p;
      assert c[|p|..] == k;
    }
    if StartsWith(c, p) && c[|p|..] == k {
      assert c == c[..|p|] + c[|p|..];
    }
  }

  lemma LauncherNotSlurm(c: string)
    ensures StartsWith(c, LauncherPrefix) ==> !StartsWith(c, SlurmPrefix)
  {
    if StartsWith(c, LauncherPrefix) {
      assert c[0] == LauncherPrefix[0];
    }
  }

  lemma PutKeepsNoFlags(d: Dict<string>, k: string, v: string)
    requires NoFlags(Values(d)) && !IsFlag(v)
    ensures NoFlags(Values(Put(d, k, v)))
  {
    PutValues(d, k, v);
    var vs := Values(Put(d, k, v));
    forall i | 0 <= i < |vs| ensures !IsFlag(vs[i]) {
      assert vs[i] in vs;
    }
  }

  lemma NoFlagsSnoc(s: seq<string>, x: string)
    ensures NoFlags(s + [x]) <==> NoFlags(s) && !IsFlag(x)
  {
    assert (s + [x])[|s|] == x;
    assert forall i :: 0 <= i < |s| ==> (s + [x])[i] == s[i];
  }

  // ---------------------------------------------------------------------
  // One step of the loop.

  /** What one token does to an override entry: a value assigns it when
      its key is open, nothing else touches it. */
  lemma StepOverride(st: State, x: string, group: OverrideGroup, k: string)
    requires Valid(st) && Step(st, x).Ok?
    ensures Find(Overrides(Step(st, x).value, group), k) ==
      if !IsFlag(x) && st.current == Some(Prefix(group) + k) then Some(x)
      else Find(Overrides(st, group), k)
  {
    if !IsFlag(x) {
      var c := st.current.value;
      PrefixedKey(c, Prefix(group), k);
      LauncherNotSlurm(c);
      if StartsWith(c, SlurmPrefix) {
        PutFind(st.slurm, c[6..], x, k);
      } else if StartsWith(c, LauncherPrefix) {
        PutFind(st.launcher, c[9..], x, k);
      }
    }
  }

  /** What one token does to a script entry: opening its flag resets it to
      the empty list, a value while it is open is appended. */
  lemma StepScript(st: State, x: string, k: string)
    requires Valid(st) && Step(st, x).Ok? && !IsRouted(k)
    ensures Find(Step(st, x).value.script, k) ==
      if IsFlag(x) && FlagKey(x) == k then Some([])
      else if !IsFlag(x) && st.current == Some(k) then Some(Find(st.script, k).value + [x])
      else Find(st.script, k)
  {
    if IsFlag(x) {
      if !IsRouted(FlagKey(x)) {
        PutFind(st.script, FlagKey(x), [], k);
      }
    } else {
      var c := st.current.value;
      if !IsRouted(c) {
        PutFind(st.script, c, Find(st.script, c).value + [x], k);
      }
    }
  }

  lemma StepScriptKeys(st: State, x: string)
    requires Valid(st) && Step(st, x).Ok?
    ensures Keys(Step(st, x).value.script) ==
      if IsFlag(x) && !IsRouted(FlagKey(x)) && FlagKey(x) !in Keys(st.script)
      then Keys(st.script) + [FlagKey(x)]
      else Keys(st.script)
  {
    if IsFlag(x) {
      if !IsRouted(FlagKey(x)) {
        PutKeys(st.script, FlagKey(x), []);
      }
    } else {
      var c := st.current.value;
      if !IsRouted(c) {
        FindSomeIff(st.script, c);
        PutKeys(st.script, c, Find(st.script, c).value + [x]);
      }
    }
  }

  lemma StepOverrideKeys(st: State, x: string, group: OverrideGroup)
    requires Valid(st) && Step(st, x).Ok?
    ensures Keys(Overrides(Step(st, x).value, group)) ==
      if !IsFlag(x) && st.current.Some? && StartsWith(st.current.value, Prefix(group))
      then
        var k := st.current.value[|Prefix(group)|..];
        if k in Keys(Overrides(st, group)) then Keys(Overrides(st, group))
        else Keys(Overrides(st, group)) + [k]
      else Keys(Overrides(st, group))
  {
    if !IsFlag(x) {
      var c := st.current.value;
      LauncherNotSlurm(c);
      if StartsWith(c, SlurmPrefix) {
        PutKeys(st.slurm, c[6..], x);
      } else if StartsWith(c, LauncherPrefix) {
        PutKeys(st.launcher, c[9..], x);
      }
    }
  }

  // ---------------------------------------------------------------------
  // The whole loop.

  /** The loop's open key is the key of the last flag seen. */
  lemma {:induction false} RunCurrent(tokens: seq<string>)
    requires Run(tokens).Ok?
    ensures Run(tokens).value.current == OpenKey(tokens)
  {
    if tokens != [] {
      RunCurrent(tokens[..|tokens| - 1]);
    }
  }

  lemma {:induction false} OpenKeyAfterFlag(tokens: seq<string>)
    requires tokens != [] && IsFlag(tokens[0])
    ensures OpenKey(tokens).Some?
  {
    var n := |tokens| - 1;
    if n > 0 && !IsFlag(tokens[n]) {
      assert tokens[..n][0] == tokens[0];
      OpenKeyAfterFlag(tokens[..n]);
    }
  }

  /** The loop fails exactly when the first token is not a flag, and then
      names that token. */
  lemma {:induction false} RunFails(tokens: seq<string>)
    ensures Run(tokens).Err? <==> tokens != [] && !IsFlag(tokens[0])
    ensures Run(tokens).Err? ==> Run(tokens).error == InvalidArgument(tokens[0])
  {
    if |tokens| > 1 {
      var p := tokens[..|tokens| - 1];
      assert p[0] == tokens[0];
      RunFails(p);
      if Run(p).Ok? {
        RunCurrent(p);
        OpenKeyAfterFlag(p);
      }
    }
  }

  /** Parsing fails with a usage error when no module is given, and when
      the first token after the module is not a `--` flag; in no other case. */
  lemma ParseErrors(argv: seq<string>)
    ensures ParseSpec(argv).Err? <==> |argv| < 2 || (|argv| > 2 && !IsFlag(argv[2]))
    ensures |argv| < 2 ==> ParseSpec(argv) == Err(MissingModule)
    ensures |argv| > 2 && !IsFlag(argv[2]) ==> ParseSpec(argv) == Err(InvalidArgument(argv[2]))
  {
    if |argv| >= 2 {
      RunFails(argv[2..]);
    }
  }

  /** The last value given to `--slurm.K` (or `--launcher.K`) is the
      override of `K`: later values overwrite earlier ones. */
  lemma {:induction false} OverrideLastValue(tokens: seq<string>, group: OverrideGroup, k: string, i: nat)
    requires Run(tokens).Ok? && i < |tokens|
    requires IsValueOf(tokens, i, Prefix(group) + k)
    requires forall l :: i < l < |tokens| ==> !IsValueOf(tokens, l, Prefix(group) + k)
    ensures Find(Overrides(Run(tokens).value, group), k) == Some(tokens[i])
  {
    var n := |tokens| - 1;
    var p, key := tokens[..n], Prefix(group) + k;
    RunCurrent(p);
    StepOverride(Run(p).value, tokens[n], group, k);
    if i < n {
      assert !IsValueOf(tokens, n, key);
      IsValueOfDropLast(tokens, i, key);
      forall l | i < l < |p|
        ensures !IsValueOf(p, l, key)
      {
        IsValueOfDropLast(tokens, l, key);
      }
      OverrideLastValue(p, group, k, i);
    }
  }

  /** Dropping the last token does not change what the earlier ones are. */
  lemma IsValueOfDropLast(tokens: seq<string>, l: nat, key: string)
    requires l < |tokens| - 1
    ensures IsValueOf(tokens[..|tokens| - 1], l, key) == IsValueOf(tokens, l, key)
  {
    assert tokens[..|tokens| - 1][..l] == tokens[..l];
  }

  /** An override key that no value was given to stays unset. */
  lemma {:induction false} OverrideAbsent(tokens: seq<string>, group: OverrideGroup, k: string)
    requires Run(tokens).Ok?
    requires forall l :: 0 <= l < |tokens| ==> !IsValueOf(tokens, l, Prefix(group) + k)
    ensures Find(Overrides(Run(tokens).value, group), k) == None
  {
    if tokens != [] {
      var n := |tokens| - 1;
      var p := tokens[..n];
      RunCurrent(p);
      StepOverride(Run(p).value, tokens[n], group, k);
      assert !IsValueOf(tokens, n, Prefix(group) + k);
      forall l | 0 <= l < |p|
        ensures !IsValueOf(p, l, Prefix(group) + k)
      {
        IsValueOfDropLast(tokens, l, Prefix(group) + k);
      }
      OverrideAbsent(p, group, k);
    }
  }

  lemma {:induction false} LeadingValuesSnoc(s: seq<string>, x: string)
    ensures LeadingValues(s + [x]) == if NoFlags(s) && !IsFlag(x) then s + [x] else LeadingValues(s)
    ensures NoFlags(s) ==> LeadingValues(s) == s
  {
    if s != [] {
      assert (s + [x])[0] == s[0];
      assert (s + [x])[1..] == s[1..] + [x];
      LeadingValuesSnoc(s[1..], x);
      assert NoFlags(s) <==> !IsFlag(s[0]) && NoFlags(s[1..]);
    }
  }

  /** The loop's view of a script key after its last opening flag at `j`:
      its list holds the values that follow that flag, and it is still open
      exactly when no flag has come since. */
  lemma {:induction false} ScriptReopenRun(tokens: seq<string>, k: string, j: nat)
    requires Run(tokens).Ok? && !IsRouted(k) && j < |tokens| && tokens[j] == "--" + k
    requires forall l :: j < l < |tokens| ==> tokens[l] != "--" + k
    ensures Find(Run(tokens).value.script, k) == Some(LeadingValues(tokens[j + 1..]))
    ensures Run(tokens).value.current == Some(k) <==> NoFlags(tokens[j + 1..])
  {
    var n := |tokens| - 1;
    var p, x := tokens[..n], tokens[n];
    assert tokens == p + [x];
    RunSnoc(p, x);
    FlagOfKey(k);
    StepScript(Run(p).value, x, k);
    if j == n {
      assert tokens[j + 1..] == [];
    } else {
      assert p[j] == tokens[j];
      ScriptReopenRun(p, k, j);
      var s := p[j + 1..];
      SliceSnoc(p, x, j + 1);
      LeadingValuesSnoc(s, x);
      if IsFlag(x) {
        FlagRebuilt(x);
      }
      NoFlagsSnoc(s, x);
    }
  }

  /** A script key no flag opens stays unset and never becomes the open key. */
  lemma {:induction false} ScriptAbsentRun(tokens: seq<string>, k: string)
    requires Run(tokens).Ok? && !IsRouted(k)
    requires forall l :: 0 <= l < |tokens| ==> tokens[l] != "--" + k
    ensures Find(Run(tokens).value.script, k) == None
    ensures Run(tokens).value.current != Some(k)
  {
    if tokens != [] {
      var n := |tokens| - 1;
      var p, x := tokens[..n], tokens[n];
      ScriptAbsentRun(p, k);
      StepScript(Run(p).value, x, k);
      if IsFlag(x) {
        FlagRebuilt(x);
      }
    }
  }

  /** A script key takes the values after its LAST `--key` flag, up to the
      next flag, joined with one space: a repeated key restarts its values,
      and a key with no values becomes the empty string. */
  lemma ScriptArgumentValue(moduleName: string, tokens: seq<string>, k: string, j: nat)
    requires ParseTokens(moduleName, tokens).Ok? && !IsRouted(k)
    requires j < |tokens| && tokens[j] == "--" + k
    requires forall l :: j < l < |tokens| ==> tokens[l] != "--" + k
    ensures Find(ParseTokens(moduleName, tokens).value.script, k)
            == Some(JoinWith(" ", LeadingValues(tokens[j + 1..])))
  {
    ScriptReopenRun(tokens, k, j);
    MapValuesFind(Run(tokens).value.script, JoinSpace, k);
  }

  /** A key that no flag opens is not a script argument. */
  lemma ScriptArgumentAbsent(moduleName: string, tokens: seq<string>, k: string)
    requires ParseTokens(moduleName, tokens).Ok? && !IsRouted(k)
    requires forall l :: 0 <= l < |tokens| ==> tokens[l] != "--" + k
    ensures Find(ParseTokens(moduleName, tokens).value.script, k) == None
  {
    ScriptAbsentRun(tokens, k);
    MapValuesFind(Run(tokens).value.script, JoinSpace, k);
  }

  /** Script keys keep the order of their first flag; a routed key never
      becomes a script argument. */
  lemma {:induction false} ScriptKeyOrder(tokens: seq<string>)
    requires Run(tokens).Ok?
    ensures Keys(Run(tokens).value.script) == Dedup(OpenedScriptKeys(tokens))
  {
    if tokens != [] {
      var n := |tokens| - 1;
      var p, x := tokens[..n], tokens[n];
      ScriptKeyOrder(p);
      StepScriptKeys(Run(p).value, x);
      var s := OpenedScriptKeys(p);
      DedupMembers(s);
      if IsFlag(x) && !IsRouted(FlagKey(x)) {
        assert (s + [FlagKey(x)])[..|s|] == s;
      } else {
        assert OpenedScriptKeys(tokens) == s;
      }
    }
  }

  /** Override keys keep the order of their first value. */
  lemma {:induction false} OverrideKeyOrder(tokens: seq<string>, group: OverrideGroup)
    requires Run(tokens).Ok?
    ensures Keys(Overrides(Run(tokens).value, group)) == Dedup(ValueKeys(tokens, group))
  {
    if tokens != [] {
      var n := |tokens| - 1;
      var p, x := tokens[..n], tokens[n];
      OverrideKeyOrder(p, group);
      RunCurrent(p);
      StepOverrideKeys(Run(p).value, x, group);
      var s := ValueKeys(p, group);
      DedupMembers(s);
      if !IsFlag(x) && OpenKey(p).Some? && StartsWith(OpenKey(p).value, Prefix(group)) {
        var k := OpenKey(p).value[|Prefix(group)|..];
        assert ValueKeys(tokens, group) == s + [k];
        assert (s + [k])[..|s|] == s;
      } else {
        assert ValueKeys(tokens, group) == s;
      }
    }
  }

  /** The dictionaries `parse_args` returns keep the same key order: script
      keys by their first flag, override keys by their first value. */
  lemma ParsedKeyOrder(moduleName: string, tokens: seq<string>)
    requires ParseTokens(moduleName, tokens).Ok?
    ensures Keys(ParseTokens(moduleName, tokens).value.script) == Dedup(OpenedScriptKeys(tokens))
    ensures Keys(ParseTokens(moduleName, tokens).value.slurm) == Dedup(ValueKeys(tokens, SlurmGroup))
    ensures Keys(ParseTokens(moduleName, tokens).value.launcher) == Dedup(ValueKeys(tokens, LauncherGroup))
  {
    ScriptKeyOrder(tokens);
    OverrideKeyOrder(tokens, SlurmGroup);
    OverrideKeyOrder(tokens, LauncherGroup);
    MapValuesKeys(Run(tokens).value.script, JoinSpace);
  }
}
