/**
 * The container commands of devenv/src/devenv.rs: `sanitize_container_name`,
 * the GC roots and attributes that `container_build`, `container_copy` and
 * `container_run` build, and the argument list handed to the copy script.
 */
module Containers {
  import opened Common

  /** `char::is_alphanumeric`, restricted to ASCII. */
  predicate IsAlphanumeric(c: char)
  {
    'a' <= c <= 'z' || 'A' <= c <= 'Z' || '0' <= c <= '9'
  }

  /** The characters a sanitized container name may hold. */
  predicate Allowed(c: char)
  {
    IsAlphanumeric(c) || c == '-' || c == '_'
  }

  /** `sanitize_container_name`: the allowed characters of `name`, in order. */
  function Sanitize(name: string): (r: string)
    ensures forall i :: 0 <= i < |r| ==> Allowed(r[i])
    ensures |r| <= |name|
  {
    if name == [] then []
    else (if Allowed(name[0]) then [name[0]] else []) + Sanitize(name[1..])
  }

  /** `a` is `b` with some characters deleted. */
  predicate IsSubsequence(a: string, b: string)
    decreases |b|
  {
    if a == [] then true
    else if b == [] then false
    else (a[0] == b[0] && IsSubsequence(a[1..], b[1..])) || IsSubsequence(a, b[1..])
  }

  // ---------------------------------------------------------------------
  // the three build steps of a container

  /** Which of the container's derivations a command builds. */
  datatype Stage = Derivation | CopyScript | DockerRun

  /** The attribute under `devenv.containers.<name>` and the suffix of the GC root of each stage. */
  function StageAttribute(s: Stage): string
  {
    match s
    case Derivation => "derivation"
    case CopyScript => "copyScript"
    case DockerRun => "dockerRun"
  }

  function StageRoot(s: Stage): string
  {
    match s
    case Derivation => "derivation"
    case CopyScript => "copy"
    case DockerRun => "run"
  }

  const RootPrefix: string := "container-"

  /** The file name of the GC root under `.devenv/gc` for one stage. */
  function GcRootName(name: string, s: Stage): string
  {
    RootPrefix + Sanitize(name) + "-" + StageRoot(s)
  }

  /** The attribute path of one stage; the name is used unsanitized. */
  function StageAttributePath(name: string, s: Stage): string
  {
    "devenv.containers." + name + "." + StageAttribute(s)
  }

  /** One backend build: the attribute and the GC root it is registered under. */
  datatype Build = Build(attribute: string, gcRoot: string)

  datatype ContainerError = UnsupportedOnMacOs | BuildFailed(stage: Stage)

  function StageBuild(name: string, s: Stage): Build
  {
    Build(StageAttributePath(name, s), GcRootName(name, s))
  }

  /** The stages a command runs, in order, ending with `last`. */
  function StagesUpTo(last: Stage): seq<Stage>
  {
    match last
    case Derivation => [Derivation]
    case CopyScript => [Derivation, CopyScript]
    case DockerRun => [Derivation, CopyScript, DockerRun]
  }

  /**
   * Running the stages in order, where the backend fails to build the stages
   * in `fails`: the stages whose build is asked for, and the outcome. The `?`
   * after each build stops at the first failing stage.
   */
  function RunStages(stages: seq<Stage>, fails: set<Stage>): (r: (seq<Stage>, Result<(), ContainerError>))
    ensures |r.0| <= |stages| && r.0 == stages[..|r.0|]
    ensures r.1.Failure? ==> r.1.error.BuildFailed?
  {
    if stages == [] then ([], Success(()))
    else if stages[0] in fails then ([stages[0]], Failure(BuildFailed(stages[0])))
    else
      var rest := RunStages(stages[1..], fails);
      assert [stages[0]] + stages[1..][..|rest.0|] == stages[..|rest.0| + 1];
      ([stages[0]] + rest.0, rest.1)
  }

  /** The builds of some stages of one container, in order. */
  function StageBuilds(name: string, stages: seq<Stage>): (r: seq<Build>)
    ensures |r| == |stages| && forall i :: 0 <= i < |r| ==> r[i] == StageBuild(name, stages[i])
  {
    seq(|stages|, i requires 0 <= i < |stages| => StageBuild(name, stages[i]))
  }

  /**
   * The build plan of a container command, in order: `container_build`
   * builds the derivation, `container_copy` first does that and then the copy
   * script, `container_run` first copies and then builds the run script. The
   * plan is refused on macOS before anything is built.
   */
  function Builds(name: string, macOs: bool, last: Stage): (r: Result<seq<Build>, ContainerError>)
    ensures macOs <==> r.Failure?
    ensures r.Failure? ==> r.error == UnsupportedOnMacOs
  {
    if macOs then Failure(UnsupportedOnMacOs) else Success(StageBuilds(name, StagesUpTo(last)))
  }

  /** A container command: on macOS it fails before asking for anything, else it runs its stages. */
  function Command(name: string, macOs: bool, last: Stage, fails: set<Stage>): (r: (seq<Build>, Result<(), ContainerError>))
    ensures r.1 == Failure(UnsupportedOnMacOs) <==> macOs
    ensures macOs ==> r.0 == []
    ensures !macOs ==> 0 < |r.0| <= |StagesUpTo(last)|
  {
    if macOs then ([], Failure(UnsupportedOnMacOs))
    else
      var run := RunStages(StagesUpTo(last), fails);
      (StageBuilds(name, run.0), run.1)
  }

  /** The arguments of the copy script: the image path, the registry (`"false"` when none), then the extra arguments. */
  function CopyArgs(spec: string, registry: Option<string>, copyArgs: seq<string>): (r: seq<string>)
    ensures |r| == |copyArgs| + 2
    ensures r[0] == spec && r[2..] == copyArgs
    ensures registry.Some? ==> r[1] == registry.value
    ensures registry.None? ==> r[1] == "false"
  {
    [spec, registry.GetOr("false")] + copyArgs
  }

  const DockerDaemon: string := "docker-daemon:"

  /** `container_run` copies to the local Docker daemon, whatever registry was asked for. */
  function RunCopyArgs(spec: string, registry: Option<string>, copyArgs: seq<string>): (r: seq<string>)
    ensures |r| == |copyArgs| + 2
    ensures r[0] == spec && r[1] == DockerDaemon && r[2..] == copyArgs
  {
    CopyArgs(spec, Some(DockerDaemon), copyArgs)
  }

  // ---------------------------------------------------------------------
  // properties

  lemma {:induction false} SanitizeConcat(a: string, b: string)
    ensures Sanitize(a + b) == Sanitize(a) + Sanitize(b)
    decreases |a|
  {
    if a != [] {
      assert (a + b)[1..] == a[1..] + b;
      SanitizeConcat(a[1..], b);
    } else {
      assert a + b == b;
    }
  }

  /** A name made only of allowed characters is its own sanitized form. */
  lemma {:induction false} SanitizeAllowed(name: string)
    requires forall i :: 0 <= i < |name| ==> Allowed(name[i])
    ensures Sanitize(name) == name
    decreases |name|
  {
    if name != [] {
      SanitizeAllowed(name[1..]);
    }
  }

  /** Sanitizing twice is sanitizing once. */
  lemma SanitizeIdempotent(name: string)
    ensures Sanitize(Sanitize(name)) == Sanitize(name)
  {
    SanitizeAllowed(Sanitize(name));
  }

  /** The sanitized name is the input with characters deleted, the rest kept in order. */
  lemma {:induction false} SanitizeSubsequence(name: string)
    ensures IsSubsequence(Sanitize(name), name)
    decreases |name|
  {
    if name != [] {
      SanitizeSubsequence(name[1..]);
      var r := Sanitize(name);
      if Allowed(name[0]) {
        assert r[0] == name[0] && r[1..] == Sanitize(name[1..]);
      } else {
        assert r == Sanitize(name[1..]);
        if r != [] {
          assert IsSubsequence(r, name[1..]);
        }
      }
    }
  }

  /** Every allowed character is kept as often as it occurs, and no other character survives. */
  lemma {:induction false} SanitizeCounts(name: string, c: char)
    ensures Allowed(c) ==> multiset(Sanitize(name))[c] == multiset(name)[c]
    ensures !Allowed(c) ==> multiset(Sanitize(name))[c] == 0
    decreases |name|
  {
    if name != [] {
      SanitizeCounts(name[1..], c);
      assert name == [name[0]] + name[1..];
      assert multiset(name) == multiset([name[0]]) + multiset(name[1..]);
      var head: string := if Allowed(name[0]) then [name[0]] else [];
      assert multiset(Sanitize(name)) == multiset(head) + multiset(Sanitize(name[1..]));
    }
  }

  /** The literal parts of a GC root name are free of `/`. */
  lemma RootLiteralsNoSlash(s: Stage)
    ensures '/' !in RootPrefix && '/' !in "-" + StageRoot(s)
  {
  }

  /** A GC root name never holds a `/`, so each root is a file directly under `.devenv/gc`. */
  lemma GcRootIsFileName(name: string, s: Stage)
    ensures '/' !in GcRootName(name, s)
  {
    var san := Sanitize(name);
    RootLiteralsNoSlash(s);
    assert !Allowed('/');
    assert GcRootName(name, s) == RootPrefix + san + ("-" + StageRoot(s));
  }

  /** Names that differ only in characters outside the allowed set share their GC roots. */
  lemma SharedRoots(a: string, junk: string, b: string, s: Stage)
    requires forall i :: 0 <= i < |junk| ==> !Allowed(junk[i])
    ensures GcRootName(a + junk + b, s) == GcRootName(a + b, s)
  {
    SanitizeConcat(a + junk, b);
    SanitizeConcat(a, junk);
    SanitizeConcat(a, b);
    SanitizeNone(junk);
  }

  lemma {:induction false} SanitizeNone(junk: string)
    requires forall i :: 0 <= i < |junk| ==> !Allowed(junk[i])
    ensures Sanitize(junk) == []
    decreases |junk|
  {
    if junk != [] {
      SanitizeNone(junk[1..]);
    }
  }

  /** Each command repeats the builds of the one it extends, then adds its own last. */
  lemma BuildsExtend(name: string)
    ensures Builds(name, false, CopyScript).value == Builds(name, false, Derivation).value + [StageBuild(name, CopyScript)]
    ensures Builds(name, false, DockerRun).value == Builds(name, false, CopyScript).value + [StageBuild(name, DockerRun)]
  {
  }

  /**
   * The run succeeds iff no stage fails, and then runs every stage; a failed
   * run stops at its first failing stage and reports that stage.
   */
  lemma RunStagesOutcome(stages: seq<Stage>, fails: set<Stage>)
    ensures var r := RunStages(stages, fails);
            && (r.1.Success? <==> forall i :: 0 <= i < |stages| ==> stages[i] !in fails)
            && (r.1.Success? ==> r.0 == stages)
            && (r.1.Failure? ==> && 0 < |r.0|
                                 && r.1.error == BuildFailed(stages[|r.0| - 1])
                                 && stages[|r.0| - 1] in fails
                                 && forall i :: 0 <= i < |r.0| - 1 ==> stages[i] !in fails)
  {
    RunStagesSuccess(stages, fails);
    RunStagesFailure(stages, fails);
  }

  /** The run succeeds iff no stage fails, and then it runs every stage. */
  lemma {:induction false} RunStagesSuccess(stages: seq<Stage>, fails: set<Stage>)
    ensures RunStages(stages, fails).1.Success? <==> forall i :: 0 <= i < |stages| ==> stages[i] !in fails
    ensures RunStages(stages, fails).1.Success? ==> RunStages(stages, fails).0 == stages
  {
    if stages != [] && stages[0] !in fails {
      RunStagesSuccess(stages[1..], fails);
      TailPasses(stages, fails);
      assert [stages[0]] + stages[1..] == stages;
    }
  }

  /** A failed run stops at a failing stage, reports it, and every stage before it passed. */
  lemma {:induction false} RunStagesFailure(stages: seq<Stage>, fails: set<Stage>)
    ensures var r := RunStages(stages, fails);
            r.1.Failure? ==> && 0 < |r.0|
                             && r.1.error == BuildFailed(stages[|r.0| - 1])
                             && stages[|r.0| - 1] in fails
                             && forall i :: 0 <= i < |r.0| - 1 ==> stages[i] !in fails
  {
    if stages != [] && stages[0] !in fails {
      var tail := stages[1..];
      RunStagesFailure(tail, fails);
      var rest := RunStages(tail, fails);
      if rest.1.Failure? {
        assert stages[|rest.0|] == tail[|rest.0| - 1];
        assert forall i :: 0 < i < |rest.0| ==> stages[i] == tail[i - 1];
      }
    }
  }

  /** After a first stage that passes, all stages pass iff all later ones do. */
  lemma TailPasses(stages: seq<Stage>, fails: set<Stage>)
    requires stages != [] && stages[0] !in fails
    ensures (forall i :: 0 <= i < |stages| ==> stages[i] !in fails)
        <==> (forall i :: 0 <= i < |stages| - 1 ==> stages[1..][i] !in fails)
  {
    if forall i :: 0 <= i < |stages| - 1 ==> stages[1..][i] !in fails {
      forall i | 0 < i < |stages| ensures stages[i] !in fails {
        assert stages[i] == stages[1..][i - 1];
      }
    }
  }

  /**
   * The builds a command asks for are a prefix of its plan: all of them when
   * no stage fails, and otherwise up to the first failing stage.
   */
  lemma CommandFollowsPlan(name: string, last: Stage, fails: set<Stage>)
    ensures var plan := Builds(name, false, last).value;
            var (issued, r) := Command(name, false, last, fails);
            && |issued| <= |plan| && issued == plan[..|issued|]
            && (r.Success? <==> forall i :: 0 <= i < |StagesUpTo(last)| ==> StagesUpTo(last)[i] !in fails)
            && (r.Success? ==> issued == plan)
  {
    var stages := StagesUpTo(last);
    var run := RunStages(stages, fails);
    RunStagesSuccess(stages, fails);
    assert Command(name, false, last, fails) == (StageBuilds(name, run.0), run.1);
    assert Builds(name, false, last).value == StageBuilds(name, stages);
    StageBuildsPrefix(name, stages, |run.0|);
  }

  /** The builds of a prefix of the stages are the prefix of their builds. */
  lemma StageBuildsPrefix(name: string, stages: seq<Stage>, k: nat)
    requires k <= |stages|
    ensures StageBuilds(name, stages[..k]) == StageBuilds(name, stages)[..k]
  {
  }

  /** A failing derivation stops every command before its copy script is built. */
  lemma DerivationFailureStops(name: string, last: Stage, fails: set<Stage>)
    requires Derivation in fails
    ensures Command(name, false, last, fails) == ([StageBuild(name, Derivation)], Failure(BuildFailed(Derivation)))
  {
    var stages := StagesUpTo(last);
    assert stages[0] == Derivation;
    assert RunStages(stages, fails) == ([Derivation], Failure(BuildFailed(Derivation)));
    assert StageBuilds(name, [Derivation]) == [StageBuild(name, Derivation)];
  }

  /** The copy arguments end with the extra arguments unchanged, after exactly two fixed ones. */
  lemma CopyArgsOrder(spec: string, registry: Option<string>, copyArgs: seq<string>, i: nat)
    requires i < |copyArgs|
    ensures CopyArgs(spec, registry, copyArgs)[i + 2] == copyArgs[i]
  {
  }
}
