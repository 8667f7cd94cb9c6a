/** `generate_slurm_script`: the `#SBATCH` header, the cartesian product of
    the script arguments' value lists, and either one invocation line or a
    job array over all combinations. */
module ScriptGen {
  import opened Wrappers
  import opened Strings
  import opened Dicts

  // ---------------------------------------------------------------------
  // The cartesian product (`itertools.product`).

  /** The number of combinations: the product of the lists' lengths. */
  function ProductSize(lists: seq<seq<string>>): nat
  {
    if lists == [] then 1 else |lists[0]| * ProductSize(lists[1..])
  }

  /** `c` takes one element from each list, in order. */
  predicate IsChoice(c: seq<string>, lists: seq<seq<string>>)
  {
    |c| == |lists| && forall j :: 0 <= j < |c| ==> c[j] in lists[j]
  }

  /** `x` put in front of every tail. */
  function ConsEach(x: string, tails: seq<seq<string>>): seq<seq<string>>
  {
    seq(|tails|, i requires 0 <= i < |tails| => [x] + tails[i])
  }

  /** Every head in front of every tail, the head varying slowest. */
  function Prepend(heads: seq<string>, tails: seq<seq<string>>): (r: seq<seq<string>>)
    ensures |r| == |heads| * |tails|
  {
    if heads == [] then []
    else
      assert |heads| * |tails| == |tails| + (|heads| - 1) * |tails|;
      ConsEach(heads[0], tails) + Prepend(heads[1..], tails)
  }

  /** `list(itertools.product(*lists))`: the first list is the outermost
      loop, the last varies fastest. */
  function Product(lists: seq<seq<string>>): (r: seq<seq<string>>)
    ensures |r| == ProductSize(lists)
  {
    if lists == [] then [[]] else Prepend(lists[0], Product(lists[1..]))
  }

  /** Whatever is in `Prepend(heads, tails)` is a head followed by a tail. */
  lemma {:induction false} PrependMember(heads: seq<string>, tails: seq<seq<string>>, c: seq<string>)
    requires c in Prepend(heads, tails)
    ensures |c| >= 1 && c[0] in heads && c[1..] in tails
  {
    var front := ConsEach(heads[0], tails);
    if c in front {
      var i :| 0 <= i < |tails| && front[i] == c;
      assert c[1..] == tails[i];
    } else {
      PrependMember(heads[1..], tails, c);
    }
  }

  /** Every combination takes one element from each list. */
  lemma {:induction false} ProductChoices(lists: seq<seq<string>>, c: seq<string>)
    requires c in Product(lists)
    ensures IsChoice(c, lists)
  {
    if lists != [] {
      PrependMember(lists[0], Product(lists[1..]), c);
      ProductChoices(lists[1..], c[1..]);
      forall j | 0 <= j < |c| ensures c[j] in lists[j] {
        if j > 0 {
          assert c[j] == c[1..][j - 1];
        }
      }
    }
  }

  /** Combination number `a * T + b` pairs head `a` with tail `b`, where
      `T` is the number of tails. */
  lemma {:induction false} PrependAt(heads: seq<string>, tails: seq<seq<string>>, a: nat, b: nat)
    requires a < |heads| && b < |tails|
    ensures a * |tails| + b < |Prepend(heads, tails)|
    ensures Prepend(heads, tails)[a * |tails| + b] == [heads[a]] + tails[b]
  {
    var t := |tails|;
    var front, rest := ConsEach(heads[0], tails), Prepend(heads[1..], tails);
    assert Prepend(heads, tails) == front + rest;
    IndexBound(a, b, |heads|, t);
    if a == 0 {
      assert front[b] == [heads[0]] + tails[b];
    } else {
      PrependAt(heads[1..], tails, a - 1, b);
      var k := (a - 1) * t + b;
      IndexStep(a, b, t);
      assert rest[k] == [heads[1..][a - 1]] + tails[b];
      assert (front + rest)[t + k] == rest[k];
    }
  }

  lemma IndexBound(a: nat, b: nat, h: nat, t: nat)
    requires a < h && b < t
    ensures a * t + b < h * t
  {
    assert (a + 1) * t == a * t + t;
    assert (a + 1) * t <= h * t;
  }

  lemma IndexStep(a: nat, b: nat, t: nat)
    requires a > 0
    ensures a * t + b == t + ((a - 1) * t + b)
  {
    assert a * t == (a - 1) * t + t;
  }

  /** The product enumerates with the first list outermost: combination
      `a * T + b` is element `a` of the first list followed by combination
      `b` of the remaining lists, `T` being their number of combinations. */
  lemma ProductOrder(lists: seq<seq<string>>, a: nat, b: nat)
    requires lists != [] && a < |lists[0]| && b < ProductSize(lists[1..])
    ensures a * ProductSize(lists[1..]) + b < |Product(lists)|
    ensures Product(lists)[a * ProductSize(lists[1..]) + b] == [lists[0][a]] + Product(lists[1..])[b]
  {
    PrependAt(lists[0], Product(lists[1..]), a, b);
  }

  /** Every choice of one element per list is one of the combinations. */
  lemma {:induction false} ProductComplete(c: seq<string>, lists: seq<seq<string>>)
    requires IsChoice(c, lists)
    ensures c in Product(lists)
  {
    if lists != [] {
      var tail, rest := c[1..], lists[1..];
      assert IsChoice(tail, rest) by {
        forall j | 0 <= j < |tail| ensures tail[j] in rest[j] {
          assert tail[j] == c[j + 1];
        }
      }
      ProductComplete(tail, rest);
      var tails := Product(rest);
      var b := IndexOf(tails, tail);
      var a := IndexOf(lists[0], c[0]);
      PrependAt(lists[0], tails, a, b);
      assert [c[0]] + tail == c;
      assert Product(lists) == Prepend(lists[0], tails);
      assert Product(lists)[a * |tails| + b] == c;
    }
  }

  /** A position at which `x` occurs in `s`. */
  function IndexOf<T(==)>(s: seq<T>, x: T): (i: nat)
    requires x in s
    ensures i < |s| && s[i] == x
  {
    if s[0] == x then 0 else 1 + IndexOf(s[1..], x)
  }

  /** There are no combinations exactly when some list is empty. */
  lemma {:induction false} ProductSizeZero(lists: seq<seq<string>>)
    ensures ProductSize(lists) == 0 <==> exists j :: 0 <= j < |lists| && lists[j] == []
  {
    if lists != [] {
      ProductSizeZero(lists[1..]);
      if exists j :: 0 <= j < |lists[1..]| && lists[1..][j] == [] {
        var j :| 0 <= j < |lists[1..]| && lists[1..][j] == [];
        assert lists[j + 1] == [];
      }
      if exists j :: 0 <= j < |lists| && lists[j] == [] {
        var j :| 0 <= j < |lists| && lists[j] == [];
        if j > 0 {
          assert lists[1..][j - 1] == [];
        }
      }
    }
  }

  // ---------------------------------------------------------------------
  // Combinations as dictionaries.

  /** `dict(zip(keys, values))`, entry by entry in key order */
  function Zip(keys: seq<string>, values: seq<string>): Dict<string>
    requires |keys| == |values|
  {
    seq(|keys|, i requires 0 <= i < |keys| => (keys[i], values[i]))
  }

  /** `[dict(zip(keys, v)) for v in itertools.product(*values)]` */
  function Combinations(args: Dict<seq<string>>): seq<Dict<string>>
  {
    var p := Product(Values(args));
    seq(|p|, i requires 0 <= i < |p| => ProductChoices(Values(args), p[i]); Zip(Keys(args), p[i]))
  }

  /** Each combination has every script key, in the arguments' order, each
      with one of that key's values; there are as many as the product of
      the list lengths. */
  lemma CombinationShape(args: Dict<seq<string>>, i: nat)
    requires i < |Combinations(args)|
    ensures |Combinations(args)| == ProductSize(Values(args))
    ensures Keys(Combinations(args)[i]) == Keys(args)
    ensures forall t :: 0 <= t < |args| ==> Combinations(args)[i][t].1 in args[t].1
  {
    var p := Product(Values(args));
    ProductChoices(Values(args), p[i]);
  }

  // ---------------------------------------------------------------------
  // The script text.

  const Shebang := "#!/bin/bash"
  const ArrayOpen := "PARAMS_ARRAY=("
  const ArrayClose := ")\n"
  const ArrayLookup := " ${PARAMS_ARRAY[$SLURM_ARRAY_TASK_ID]}"

  /** `#SBATCH --key=value`, the value copied verbatim */
  function Directive(key: string, value: string): string
  {
    "#SBATCH --" + key + "=" + value
  }

  /** `#SBATCH --array=0-<last>` with the line break the source appends */
  function ArrayDirective(last: nat): string
  {
    "#SBATCH --array=0-" + Decimal(last) + "\n"
  }

  /** `" ".join(f"--{k} {v}" for k, v in combo.items())` */
  function Params(combo: Dict<string>): string
  {
    JoinWith(" ", seq(|combo|, i requires 0 <= i < |combo| => "--" + combo[i].0 + " " + combo[i].1))
  }

  /** One element of the shell array: the parameters in double quotes. */
  function ArrayElement(combo: Dict<string>): string
  {
    "    \"" + Params(combo) + "\""
  }

  function DirectiveLines(slurm: Dict<string>): seq<string>
  {
    seq(|slurm|, i requires 0 <= i < |slurm| => Directive(slurm[i].0, slurm[i].1))
  }

  function ArrayElements(combos: seq<Dict<string>>): seq<string>
  {
    seq(|combos|, j requires 0 <= j < |combos| => ArrayElement(combos[j]))
  }

  /** The lines of the generated script for at least one combination. */
  function ScriptLines(moduleName: string, slurm: Dict<string>, combos: seq<Dict<string>>,
                       preamble: string, cmdPrefix: string): seq<string>
    requires |combos| >= 1
  {
    [Shebang] + DirectiveLines(slurm)
    + if |combos| > 1 then
        [ArrayDirective(|combos| - 1), ArrayOpen] + ArrayElements(combos)
        + [ArrayClose, preamble, cmdPrefix + moduleName + ArrayLookup]
      else
        ["\n" + preamble, cmdPrefix + moduleName + " " + Params(combos[0])]
  }

  /** The script starts with the shebang and then one `#SBATCH --key=value`
      line per scheduler setting, in the settings' order. */
  lemma ScriptHeader(moduleName: string, slurm: Dict<string>, combos: seq<Dict<string>>,
                     preamble: string, cmdPrefix: string)
    requires |combos| >= 1
    ensures var lines := ScriptLines(moduleName, slurm, combos, preamble, cmdPrefix);
      && |lines| > |slurm| + 1
      && lines[0] == Shebang
      && forall i :: 0 <= i < |slurm| ==> lines[1 + i] == "#SBATCH --" + slurm[i].0 + "=" + slurm[i].1
  {
  }

  /** With n > 1 combinations: the array directive for indices 0 to n-1,
      the array of n quoted parameter strings in combination order, the
      preamble and the invocation indexed by the task id. */
  lemma JobArrayLayout(moduleName: string, slurm: Dict<string>, combos: seq<Dict<string>>,
                       preamble: string, cmdPrefix: string)
    requires |combos| > 1
    ensures var lines := ScriptLines(moduleName, slurm, combos, preamble, cmdPrefix);
      var h, n := |slurm|, |combos|;
      && |lines| == h + n + 6
      && lines[h + 1] == "#SBATCH --array=0-" + Decimal(n - 1) + "\n"
      && DecimalValue(Decimal(n - 1)) == n - 1
      && lines[h + 2] == "PARAMS_ARRAY=("
      && (forall j :: 0 <= j < n ==> lines[h + 3 + j] == "    \"" + Params(combos[j]) + "\"")
      && lines[h + n + 3] == ")\n"
      && lines[h + n + 4] == preamble
      && lines[h + n + 5] == cmdPrefix + moduleName + " ${PARAMS_ARRAY[$SLURM_ARRAY_TASK_ID]}"
  {
    DecimalRoundTrip(|combos| - 1);
  }

  /** With one combination: no array directive, the preamble after a blank
      line, and one invocation with that combination's parameters. */
  lemma SingleJobLayout(moduleName: string, slurm: Dict<string>, combos: seq<Dict<string>>,
                        preamble: string, cmdPrefix: string)
    requires |combos| == 1
    ensures var lines := ScriptLines(moduleName, slurm, combos, preamble, cmdPrefix);
      && |lines| == |slurm| + 3
      && lines[|slurm| + 1] == "\n" + preamble
      && lines[|slurm| + 2] == cmdPrefix + moduleName + " " + Params(combos[0])
  {
  }

  /** The rendering loops of `generate_slurm_script`, appending line by line. */
  method RenderLines(moduleName: string, slurm: Dict<string>, combos: seq<Dict<string>>,
                     preamble: string, cmdPrefix: string) returns (lines: seq<string>)
    requires |combos| >= 1
    ensures lines == ScriptLines(moduleName, slurm, combos, preamble, cmdPrefix)
  {
    lines := [Shebang];
    for i := 0 to |slurm|
      invariant lines == [Shebang] + DirectiveLines(slurm[..i])
    {
      lines := lines + [Directive(slurm[i].0, slurm[i].1)];
    }
    assert slurm[..|slurm|] == slurm;
    ghost var header := lines;

    if |combos| > 1 {
      lines := lines + [ArrayDirective(|combos| - 1)];
      lines := lines + [ArrayOpen];
      for j := 0 to |combos|
        invariant lines == header + [ArrayDirective(|combos| - 1), ArrayOpen] + ArrayElements(combos[..j])
      {
        lines := lines + [ArrayElement(combos[j])];
      }
      assert combos[..|combos|] == combos;
      lines := lines + [ArrayClose];
      lines := lines + [preamble];
      lines := lines + [cmdPrefix + moduleName + ArrayLookup];
    } else {
      lines := lines + ["\n" + preamble];
      lines := lines + [cmdPrefix + moduleName + " " + Params(combos[0])];
    }
  }

  datatype GenerateError =
    | NoScriptArguments               // `zip(*args.items())` has nothing to unpack
    | MissingLauncherKey(key: string) // `launch_args[key]` raises
    | NoCombinations                  // `combinations[0]` raises

  /** `generate_slurm_script`: the script text (lines joined with "\n") and
      the number of jobs. */
  method GenerateScript(moduleName: string, args: Dict<seq<string>>, slurm: Dict<string>,
                        launcher: Dict<string>) returns (r: Result<(string, nat), GenerateError>)
    ensures args == [] ==> r == Err(NoScriptArguments)
    ensures args != [] && Find(launcher, "preamble").None? ==> r == Err(MissingLauncherKey("preamble"))
    ensures args != [] && Find(launcher, "preamble").Some? && Find(launcher, "cmd_prefix").None?
            ==> r == Err(MissingLauncherKey("cmd_prefix"))
    ensures (args != [] && Find(launcher, "preamble").Some? && Find(launcher, "cmd_prefix").Some?
             && ProductSize(Values(args)) == 0) ==> r == Err(NoCombinations)
    ensures r.Ok? <==> args != [] && Find(launcher, "preamble").Some?
                       && Find(launcher, "cmd_prefix").Some? && ProductSize(Values(args)) >= 1
    ensures r.Ok? ==>
      && r.value.1 == ProductSize(Values(args))
      && r.value.0 == JoinWith("\n", ScriptLines(moduleName, slurm, Combinations(args),
                                   Find(launcher, "preamble").value, Find(launcher, "cmd_prefix").value))
  {
    if args == [] {
      return Err(NoScriptArguments);
    }
    var combos := Combinations(args);
    var preamble := Find(launcher, "preamble");
    if preamble.None? {
      return Err(MissingLauncherKey("preamble"));
    }
    var cmdPrefix := Find(launcher, "cmd_prefix");
    if cmdPrefix.None? {
      return Err(MissingLauncherKey("cmd_prefix"));
    }
    if |combos| == 0 {
      return Err(NoCombinations);
    }
    var lines := RenderLines(moduleName, slurm, combos, preamble.value, cmdPrefix.value);
    r := Ok((JoinWith("\n", lines), |combos|));
  }
}
