/**
 * The environment of a devenv shell (devenv/src/devenv.rs): the
 * `capture_shell_environment` parse of `env` output merged over the ambient
 * variables, and the clean/keep filter `prepare_shell` applies to the
 * shell's own environment.
 */
module ShellEnv {
  import opened Common
  import opened Strings

  type Env = map<string, string>

  /** The `clean` section of the configuration; absent means disabled with nothing kept. */
  datatype CleanConfig = CleanConfig(enabled: bool, keep: seq<string>)

  /** The `--clean` option (with its keep list) and the configured `clean` section. */
  datatype CleanPolicy = CleanPolicy(global: Option<seq<string>>, config: CleanConfig)

  /** Clean mode is on when `--clean` is given or the configuration enables it. */
  predicate CleanActive(p: CleanPolicy)
  {
    p.global.Some? || p.config.enabled
  }

  /** The variables clean mode keeps: those of `--clean` when given, else the configured ones. */
  function Keep(p: CleanPolicy): seq<string>
  {
    match p.global
    case Some(keep) => keep
    case None => p.config.keep
  }

  /** One line of `env` output, split at its first `=`; a line without `=` carries no variable. */
  function ParseEnvLine(line: string): Option<(string, string)>
  {
    SplitOnce(line, '=')
  }

  /** The (name, value) pairs of the captured lines, in order. */
  function CapturedPairs(lines: seq<string>): seq<(string, string)>
  {
    if lines == [] then []
    else
      var rest := CapturedPairs(lines[..|lines| - 1]);
      match ParseEnvLine(lines[|lines| - 1])
      case Some(kv) => rest + [kv]
      case None => rest
  }

  /** `env` with every pair inserted in order, so a later pair for a name wins. */
  function Overlay(env: Env, pairs: seq<(string, string)>): Env
  {
    if pairs == [] then env
    else
      var last := pairs[|pairs| - 1];
      Overlay(env, pairs[..|pairs| - 1])[last.0 := last.1]
  }

  /** The ambient variables `capture_shell_environment` starts from: in clean mode, all but the kept ones. */
  function CaptureBase(ambient: Env, p: CleanPolicy): Env
  {
    if CleanActive(p) then map k | k in ambient && k !in Keep(p) :: ambient[k] else ambient
  }

  /** The environment `capture_shell_environment` returns for the captured `env` output `text`. */
  function CapturedEnv(text: string, ambient: Env, p: CleanPolicy): Env
  {
    Overlay(CaptureBase(ambient, p), CapturedPairs(Lines(text)))
  }

  /**
   * The environment `prepare_shell` gives the shell: in clean mode only the
   * kept variables, otherwise all of them; then `SHELL`, and `DEVENV_CMDLINE`
   * passed through when it is set.
   */
  function ShellCommandEnv(ambient: Env, p: CleanPolicy, bash: string): Env
  {
    var base := if CleanActive(p) then map k | k in ambient && k in Keep(p) :: ambient[k] else ambient;
    var withShell := base["SHELL" := bash];
    if "DEVENV_CMDLINE" in ambient then withShell["DEVENV_CMDLINE" := ambient["DEVENV_CMDLINE"]] else withShell
  }

  // ---------------------------------------------------------------------
  // the loops of capture_shell_environment

  /** The `while let` loop over the lines of the captured file. */
  method ParseEnvFile(text: string) returns (pairs: seq<(string, string)>)
    ensures pairs == CapturedPairs(Lines(text))
  {
    var lines := Lines(text);
    pairs := [];
    var i := 0;
    while i < |lines|
      invariant 0 <= i <= |lines|
      invariant pairs == CapturedPairs(lines[..i])
    {
      assert lines[..i + 1][..i] == lines[..i];
      var parsed := ParseEnvLine(lines[i]);
      if parsed.Some? {
        pairs := pairs + [parsed.value];
      }
      i := i + 1;
    }
    assert lines[..i] == lines;
  }

  /** The `for` loop that inserts the captured pairs over the ambient map. */
  method Merge(base: Env, pairs: seq<(string, string)>) returns (env: Env)
    ensures env == Overlay(base, pairs)
  {
    env := base;
    for i := 0 to |pairs|
      invariant env == Overlay(base, pairs[..i])
    {
      assert pairs[..i + 1][..i] == pairs[..i];
      env := env[pairs[i].0 := pairs[i].1];
    }
    assert pairs[..|pairs|] == pairs;
  }

  method CaptureShellEnvironment(text: string, ambient: Env, p: CleanPolicy) returns (env: Env)
    ensures env == CapturedEnv(text, ambient, p)
  {
    var pairs := ParseEnvFile(text);
    env := Merge(CaptureBase(ambient, p), pairs);
  }

  // ---------------------------------------------------------------------
  // properties

  /** A line splits at its first `=` only: the name has no `=`, the value may. */
  lemma SplitAtFirstEquals(name: string, value: string)
    requires '=' !in name
    ensures ParseEnvLine(name + "=" + value) == Some((name, value))
  {
    var line := name + "=" + value;
    FirstOccurrence(name, '=', value);
    assert line[..|name|] == name;
    assert line[|name| + 1..] == value;
  }

  /** A line without `=` is dropped. */
  lemma LineWithoutEquals(line: string)
    requires '=' !in line
    ensures ParseEnvLine(line) == None
  {
  }

  /** Capturing the lines one after another gives the pairs of each part in order. */
  lemma {:induction false} CapturedPairsConcat(a: seq<string>, b: seq<string>)
    ensures CapturedPairs(a + b) == CapturedPairs(a) + CapturedPairs(b)
    decreases |b|
  {
    if b == [] {
      assert a + b == a;
    } else {
      var init := b[..|b| - 1];
      assert (a + b)[..|a + b| - 1] == a + init;
      assert (a + b)[|a + b| - 1] == b[|b| - 1];
      CapturedPairsConcat(a, init);
    }
  }

  /** One line gives its pair when it has an `=`, and nothing otherwise. */
  lemma CapturedPairsOne(line: string)
    ensures CapturedPairs([line]) == if '=' in line then [ParseEnvLine(line).value] else []
  {
    assert [line][..0] == [];
  }

  /** The result holds the ambient names, and the captured names. */
  lemma {:induction false} OverlayKeys(env: Env, pairs: seq<(string, string)>)
    ensures Overlay(env, pairs).Keys == env.Keys + set j | 0 <= j < |pairs| :: pairs[j].0
  {
    if pairs != [] {
      var init := pairs[..|pairs| - 1];
      OverlayKeys(env, init);
      var names := set j | 0 <= j < |pairs| :: pairs[j].0;
      var initNames := set j | 0 <= j < |init| :: init[j].0;
      assert names == initNames + {pairs[|pairs| - 1].0} by {
        forall n | n in names ensures n in initNames + {pairs[|pairs| - 1].0} {
          var j :| 0 <= j < |pairs| && pairs[j].0 == n;
          if j < |init| { assert init[j] == pairs[j]; }
        }
        forall n | n in initNames ensures n in names {
          var j :| 0 <= j < |init| && init[j].0 == n;
          assert pairs[j] == init[j];
        }
      }
    }
  }

  /** A captured pair wins over the ambient value and over every earlier pair for its name. */
  lemma {:induction false} CapturedWins(env: Env, pairs: seq<(string, string)>, j: nat)
    requires j < |pairs|
    requires forall m :: j < m < |pairs| ==> pairs[m].0 != pairs[j].0
    ensures pairs[j].0 in Overlay(env, pairs) && Overlay(env, pairs)[pairs[j].0] == pairs[j].1
  {
    var init := pairs[..|pairs| - 1];
    if j < |pairs| - 1 {
      assert forall m :: j < m < |init| ==> init[m].0 != init[j].0 by {
        forall m | j < m < |init| ensures init[m].0 != init[j].0 { assert init[m] == pairs[m]; }
      }
      CapturedWins(env, init, j);
    }
  }

  /** An ambient value nothing captured overrides is kept as it was. */
  lemma {:induction false} AmbientKept(env: Env, pairs: seq<(string, string)>, k: string)
    requires k in env
    requires forall j :: 0 <= j < |pairs| ==> pairs[j].0 != k
    ensures k in Overlay(env, pairs) && Overlay(env, pairs)[k] == env[k]
  {
    if pairs != [] {
      var init := pairs[..|pairs| - 1];
      assert forall j :: 0 <= j < |init| ==> init[j].0 != k by {
        forall j | 0 <= j < |init| ensures init[j].0 != k { assert init[j] == pairs[j]; }
      }
      AmbientKept(env, init, k);
    }
  }

  /** In clean mode the capture starts from the ambient variables minus the kept ones; otherwise from all. */
  lemma CaptureBaseKeys(ambient: Env, p: CleanPolicy, k: string)
    ensures k in CaptureBase(ambient, p) <==> k in ambient && (CleanActive(p) ==> k !in Keep(p))
    ensures k in CaptureBase(ambient, p) ==> CaptureBase(ambient, p)[k] == ambient[k]
  {
  }

  /**
   * The shell keeps, in clean mode, exactly the kept ambient variables, and
   * otherwise all of them; `SHELL` is always the bash path, and every other
   * variable has its ambient value.
   */
  lemma ShellCommandEnvKeys(ambient: Env, p: CleanPolicy, bash: string, k: string)
    ensures var e := ShellCommandEnv(ambient, p, bash);
            && "SHELL" in e && e["SHELL"] == bash
            && (k != "SHELL" ==> (k in e <==> k in ambient && (CleanActive(p) && k != "DEVENV_CMDLINE" ==> k in Keep(p))))
            && (k != "SHELL" && k in e ==> e[k] == ambient[k])
  {
  }

  /**
   * Clean mode treats the keep list in opposite ways: a kept ambient variable
   * that nothing captured reaches the shell of `prepare_shell` but is absent
   * from the captured environment.
   */
  lemma CleanModeAsymmetry(text: string, ambient: Env, p: CleanPolicy, bash: string, k: string)
    requires CleanActive(p) && k in ambient && k in Keep(p) && k != "SHELL"
    requires forall j :: 0 <= j < |CapturedPairs(Lines(text))| ==> CapturedPairs(Lines(text))[j].0 != k
    ensures k in ShellCommandEnv(ambient, p, bash)
    ensures k !in CapturedEnv(text, ambient, p)
  {
    var pairs := CapturedPairs(Lines(text));
    OverlayKeys(CaptureBase(ambient, p), pairs);
    assert k !in set j | 0 <= j < |pairs| :: pairs[j].0;
  }

  /** A variable captured from `name=value` has that value, unless a later line sets it again. */
  lemma CapturedLineWins(before: seq<string>, name: string, value: string, after: seq<string>, ambient: Env, p: CleanPolicy)
    requires '=' !in name
    requires forall j :: 0 <= j < |CapturedPairs(after)| ==> CapturedPairs(after)[j].0 != name
    ensures var pairs := CapturedPairs(before + [name + "=" + value] + after);
            name in Overlay(CaptureBase(ambient, p), pairs) && Overlay(CaptureBase(ambient, p), pairs)[name] == value
  {
    var line := name + "=" + value;
    SplitAtFirstEquals(name, value);
    assert '=' in line by { assert line[|name|] == '='; }
    CapturedPairsOne(line);
    CapturedPairsConcat(before, [line]);
    CapturedPairsConcat(before + [line], after);
    var pairs := CapturedPairs(before) + [(name, value)] + CapturedPairs(after);
    var j := |CapturedPairs(before)|;
    assert pairs[j] == (name, value);
    forall m | j < m < |pairs| ensures pairs[m].0 != name {
      assert pairs[m] == CapturedPairs(after)[m - j - 1];
    }
    CapturedWins(CaptureBase(ambient, p), pairs, j);
  }
}
