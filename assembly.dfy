/**
 * `Devenv::assemble` and the pid-file half of `up` and `down`
 * (devenv/src/devenv.rs). The filesystem is an abstract map from the files
 * these operations touch to their text and a set of created directories;
 * the Nix backend, the spawned process and the signal are oracles.
 */
module Assembly {
  import opened Common
  import opened Strings
  import opened CliOptions
  import opened Direnvrc

  /** The files `assemble`, `up` and `down` write, by their role. */
  datatype FileId =
    | FlakeJson       // .devenv/flake.json
    | DevenvJson      // .devenv/devenv.json
    | ImportsTxt      // .devenv/imports.txt
    | CliOptionsNix   // .devenv/cli-options.nix
    | DevenvFlake     // .devenv.flake.nix in the project root
    | ProcessesScript // .devenv/processes
    | ProcessesLog    // .devenv/processes.log
    | ProcessesPid    // .devenv/processes.pid

  /** The directories `assemble` creates. */
  datatype DirId = DotGc | Runtime

  datatype DevenvError =
    | MissingDevenvNix
    | CreateDirFailed(dir: DirId)
    | BackendFailed
    | InputParseFailed(input: string)
    | WriteFailed(file: FileId)
    | InvalidOption(error: OptionError)
    | NoProcesses
    | NoProcessId
    | NotRunning
    | BadPidFile
    | ProcessNotFound(pid: int)

  /** What a call of `up` ends in: a detached child with its pid, or `exec` into the process runner. */
  datatype Launch = Detached(pid: nat) | Replaced

  /** The values written into the `VarsMarker` block of the flake. */
  datatype FlakeSettings = FlakeSettings(
    version: string,
    system: string,
    root: string,
    dotfileName: string,
    containerName: Option<string>,
    tmpdir: string,
    runtime: string)

  /**
   * The configuration `assemble` reads. Serialising the flake inputs and the
   * configuration to JSON is not modelled: their texts are given.
   */
  datatype Settings = Settings(
    options: seq<string>,              // the global `--option` arguments
    inputs: seq<(string, bool)>,       // each input's name and whether it parses as a flake input
    imports: seq<string>,
    flakeInputsJson: string,
    configJson: string,
    flakeTemplate: string,
    direnvrc: string,                  // the embedded direnvrc, before the rolling-upgrade switch
    flake: FlakeSettings)

  /** The answers of the outside world during one call. */
  datatype World = World(
    devenvNixExists: bool,
    createDirFails: set<DirId>,
    backendAssembles: bool,
    writeFails: set<FileId>,
    hasProcesses: Option<bool>,       // whether a `processes` option is defined, or a failed evaluation
    procfileScript: Option<string>,   // the built `procfileScript` path, or a failed build
    spawnedPid: Option<nat>,          // `Child::id` of the spawned runner
    signalDelivered: bool)            // whether `kill(pid, SIGTERM)` succeeds

  datatype State = State(assembled: bool, files: map<FileId, string>, dirs: set<DirId>)

  // ---------------------------------------------------------------------
  // specification

  /** The name of the first input that does not parse, in the order given. */
  function FirstBadInput(inputs: seq<(string, bool)>): (r: Option<string>)
    ensures r.None? <==> forall j :: 0 <= j < |inputs| ==> inputs[j].1
    ensures r.Some? ==> exists j :: 0 <= j < |inputs| && !inputs[j].1 && inputs[j].0 == r.value
                                    && forall k :: 0 <= k < j ==> inputs[k].1
  {
    if inputs == [] then None
    else if !inputs[0].1 then Some(inputs[0].0)
    else FirstBadInput(inputs[1..])
  }

  /** One line of the `vars` block. */
  function VarLine(name: string, value: string): string
  {
    name + " = " + value + ";\n"
  }

  function Quoted(v: string): string
  {
    "\"" + v + "\""
  }

  /** The `vars` block spliced into the flake template, one `name = value;` line each. */
  function FlakeVars(f: FlakeSettings, isTesting: bool, direnvrcVersion: nat): string
  {
    var first := VarLine("version", Quoted(f.version));
    var last := VarLine("devenv_direnvrc_latest_version", NatToString(direnvrcVersion));
    first + FlakeMiddle(f, isTesting) + last
  }

  /** The lines of the `vars` block between the first and the last. */
  function FlakeMiddle(f: FlakeSettings, isTesting: bool): string
  {
      VarLine("system", Quoted(f.system))
      + VarLine("devenv_root", Quoted(f.root))
      + VarLine("devenv_dotfile", "./" + f.dotfileName)
      + VarLine("devenv_dotfile_string", Quoted(f.dotfileName))
      + VarLine("container_name", match f.containerName case Some(n) => Quoted(n) case None => "null")
      + VarLine("devenv_tmpdir", Quoted(f.tmpdir))
      + VarLine("devenv_runtime", Quoted(f.runtime))
      + VarLine("devenv_istesting", if isTesting then "true" else "false")
  }

  /** The placeholder of the flake template that the variable block replaces. */
  const VarsMarker: string := "__DEVENV_VARS__"

  /** The text of `.devenv.flake.nix`. */
  function FlakeText(c: Settings, isTesting: bool): string
  {
    ReplaceAll(c.flakeTemplate, VarsMarker,
               FlakeVars(c.flake, isTesting, DirenvrcVersion(Shipped(c.direnvrc))))
  }

  /**
   * `assemble`: the state after the call and its outcome. Each step runs
   * only when every earlier one succeeded, and the flag is set last.
   */
  function AssembleSpec(s: State, c: Settings, w: World, isTesting: bool): (State, Outcome<DevenvError>)
  {
    if s.assembled then (s, Pass)
    else if |c.options| == 0 && !w.devenvNixExists then (s, Fail(MissingDevenvNix))
    else if DotGc in w.createDirFails then (s, Fail(CreateDirFailed(DotGc)))
    else WriteRecords(s.(dirs := s.dirs + {DotGc}), c, w, isTesting)
  }

  /**
   * The middle of `assemble`: initialise the backend, parse the inputs, write
   * the three JSON and text records, and create the runtime directory.
   */
  function WriteRecords(s: State, c: Settings, w: World, isTesting: bool): (State, Outcome<DevenvError>)
  {
    if !w.backendAssembles then (s, Fail(BackendFailed))
    else if FirstBadInput(c.inputs).Some? then (s, Fail(InputParseFailed(FirstBadInput(c.inputs).value)))
    else if FlakeJson in w.writeFails then (s, Fail(WriteFailed(FlakeJson)))
    else
      var s2 := s.(files := s.files[FlakeJson := c.flakeInputsJson]);
      if DevenvJson in w.writeFails then (s2, Fail(WriteFailed(DevenvJson)))
      else
        var s3 := s2.(files := s2.files[DevenvJson := c.configJson]);
        if ImportsTxt in w.writeFails then (s3, Fail(WriteFailed(ImportsTxt)))
        else
          var s4 := s3.(files := s3.files[ImportsTxt := Join(c.imports, "\n")]);
          if Runtime in w.createDirFails then (s4, Fail(CreateDirFailed(Runtime)))
          else WriteOverlay(s4.(dirs := s4.dirs + {Runtime}), c, w, isTesting)
  }

  /** `cli-options.nix`: written from the `--option` pairs, or removed when there are none. */
  function WriteOverlay(s: State, c: Settings, w: World, isTesting: bool): (State, Outcome<DevenvError>)
  {
    if |c.options| == 0 then FinishAssemble(s.(files := s.files - {CliOptionsNix}), c, w, isTesting)
    else match RenderOverlay(c.options)
      case Failure(e) => (s, Fail(InvalidOption(e)))
      case Success(text) =>
        if CliOptionsNix in w.writeFails then (s, Fail(WriteFailed(CliOptionsNix)))
        else FinishAssemble(s.(files := s.files[CliOptionsNix := text]), c, w, isTesting)
  }

  /** The last two steps of `assemble`: write the flake, then set the flag. */
  function FinishAssemble(s: State, c: Settings, w: World, isTesting: bool): (State, Outcome<DevenvError>)
  {
    if DevenvFlake in w.writeFails then (s, Fail(WriteFailed(DevenvFlake)))
    else (s.(files := s.files[DevenvFlake := FlakeText(c, isTesting)], assembled := true), Pass)
  }

  const Shebang: string := "#!/usr/bin/env bash\n"
  const TuiOff: string := "export PC_TUI_ENABLED=0"

  /** The runner script `up` writes: the TUI is switched off for a detached run. */
  function ProcessesScriptText(procfileScript: string, processes: seq<string>, detach: bool): string
  {
    Shebang + (if detach then TuiOff else "") + "\n" + ExecLine(procfileScript, processes)
  }

  function ExecLine(procfileScript: string, processes: seq<string>): string
  {
    "exec " + procfileScript + " " + Join(processes, " ") + "\n"
  }

  /** `up`: assemble, check for processes, write the runner script, and in detached mode the pid file. */
  function UpSpec(s: State, c: Settings, w: World, processes: seq<string>, detach: bool, logToFile: bool)
    : (State, Result<Launch, DevenvError>)
  {
    var a := AssembleSpec(s, c, w, false);
    var s1 := a.0;
    if a.1.Fail? then (s1, Failure(a.1.error))
    else if w.hasProcesses.None? then (s1, Failure(BackendFailed))
    else if !w.hasProcesses.value then (s1, Failure(NoProcesses))
    else match w.procfileScript
      case None => (s1, Failure(BackendFailed))
      case Some(p) =>
        var s2 := s1.(files := s1.files[ProcessesScript := ProcessesScriptText(p, processes, detach)]);
        if !detach then (s2, Success(Replaced))
        else
          var s3 := if logToFile then s2.(files := s2.files[ProcessesLog := ""]) else s2;
          match w.spawnedPid
          case None => (s3, Failure(NoProcessId))
          case Some(pid) => (s3.(files := s3.files[ProcessesPid := NatToString(pid)]), Success(Detached(pid)))
  }

  /** `down`: read the pid file, signal that pid, and remove the file. */
  function DownSpec(s: State, signalDelivered: bool): (State, Result<int, DevenvError>)
  {
    if ProcessesPid !in s.files then (s, Failure(NotRunning))
    else match ParseI32(s.files[ProcessesPid])
      case None => (s, Failure(BadPidFile))
      case Some(pid) =>
        if !signalDelivered then (s, Failure(ProcessNotFound(pid)))
        else (s.(files := s.files - {ProcessesPid}), Success(pid))
  }

  // ---------------------------------------------------------------------
  // the object

  class Devenv {
    const settings: Settings
    var assembled: bool
    var files: map<FileId, string>
    var dirs: set<DirId>

    constructor(settings: Settings, files: map<FileId, string>, dirs: set<DirId>)
      ensures this.settings == settings && !assembled && this.files == files && this.dirs == dirs
    {
      this.settings := settings;
      this.assembled := false;
      this.files := files;
      this.dirs := dirs;
    }

    function Snapshot(): State
      reads this
    {
      State(assembled, files, dirs)
    }

    /** `write_file_with_lock`: replaces the file's text, unless the write fails. */
    method WriteFile(f: FileId, text: string, w: World) returns (ok: bool)
      modifies this
      ensures ok == (f !in w.writeFails)
      ensures files == if ok then old(files)[f := text] else old(files)
      ensures assembled == old(assembled) && dirs == old(dirs)
    {
      ok := f !in w.writeFails;
      if ok {
        files := files[f := text];
      }
    }

    /** `create_dir_all`. */
    method CreateDir(d: DirId, w: World) returns (ok: bool)
      modifies this
      ensures ok == (d !in w.createDirFails)
      ensures dirs == if ok then old(dirs) + {d} else old(dirs)
      ensures assembled == old(assembled) && files == old(files)
    {
      ok := d !in w.createDirFails;
      if ok {
        dirs := dirs + {d};
      }
    }

    method Assemble(w: World, isTesting: bool) returns (r: Outcome<DevenvError>)
      modifies this
      ensures (Snapshot(), r) == AssembleSpec(old(Snapshot()), settings, w, isTesting)
    {
      if assembled {
        return Pass;
      }
      if |settings.options| == 0 && !w.devenvNixExists {
        return Fail(MissingDevenvNix);
      }
      var ok := CreateDir(DotGc, w);
      if !ok {
        return Fail(CreateDirFailed(DotGc));
      }
      if !w.backendAssembles {
        return Fail(BackendFailed);
      }
      var inputs := settings.inputs;
      for i := 0 to |inputs|
        invariant FirstBadInput(inputs) == FirstBadInput(inputs[i..])
        invariant Snapshot() == old(Snapshot()).(dirs := old(dirs) + {DotGc})
      {
        assert inputs[i..][1..] == inputs[i + 1..];
        if !inputs[i].1 {
          return Fail(InputParseFailed(inputs[i].0));
        }
      }
      ok := WriteFile(FlakeJson, settings.flakeInputsJson, w);
      if !ok {
        return Fail(WriteFailed(FlakeJson));
      }
      ok := WriteFile(DevenvJson, settings.configJson, w);
      if !ok {
        return Fail(WriteFailed(DevenvJson));
      }
      ok := WriteFile(ImportsTxt, Join(settings.imports, "\n"), w);
      if !ok {
        return Fail(WriteFailed(ImportsTxt));
      }
      ok := CreateDir(Runtime, w);
      if !ok {
        return Fail(CreateDirFailed(Runtime));
      }
      if |settings.options| > 0 {
        var overlay := BuildOverlay(settings.options);
        if overlay.Failure? {
          return Fail(InvalidOption(overlay.error));
        }
        ok := WriteFile(CliOptionsNix, overlay.value, w);
        if !ok {
          return Fail(WriteFailed(CliOptionsNix));
        }
      } else {
        files := files - {CliOptionsNix};
      }
      ok := WriteFile(DevenvFlake, FlakeText(settings, isTesting), w);
      if !ok {
        return Fail(WriteFailed(DevenvFlake));
      }
      assembled := true;
      r := Pass;
    }

    method Up(processes: seq<string>, detach: bool, logToFile: bool, w: World) returns (r: Result<Launch, DevenvError>)
      modifies this
      ensures (Snapshot(), r) == UpSpec(old(Snapshot()), settings, w, processes, detach, logToFile)
    {
      var a := Assemble(w, false);
      if a.Fail? {
        return Failure(a.error);
      }
      if w.hasProcesses.None? {
        return Failure(BackendFailed);
      }
      if !w.hasProcesses.value {
        return Failure(NoProcesses);
      }
      if w.procfileScript.None? {
        return Failure(BackendFailed);
      }
      files := files[ProcessesScript := ProcessesScriptText(w.procfileScript.value, processes, detach)];
      if !detach {
        return Success(Replaced);
      }
      if logToFile {
        files := files[ProcessesLog := ""];
      }
      if w.spawnedPid.None? {
        return Failure(NoProcessId);
      }
      var pid := w.spawnedPid.value;
      files := files[ProcessesPid := NatToString(pid)];
      r := Success(Detached(pid));
    }

    method Down(signalDelivered: bool) returns (r: Result<int, DevenvError>)
      modifies this
      ensures (Snapshot(), r) == DownSpec(old(Snapshot()), signalDelivered)
    {
      if ProcessesPid !in files {
        return Failure(NotRunning);
      }
      var pid := ParseI32(files[ProcessesPid]);
      if pid.None? {
        return Failure(BadPidFile);
      }
      if !signalDelivered {
        return Failure(ProcessNotFound(pid.value));
      }
      files := files - {ProcessesPid};
      r := Success(pid.value);
    }
  }

  // ---------------------------------------------------------------------
  // properties of assemble

  /** Every step `assemble` takes succeeds, stated independently of the step order. */
  predicate StepsSucceed(c: Settings, w: World)
  {
    && (|c.options| > 0 || w.devenvNixExists)
    && DotGc !in w.createDirFails && Runtime !in w.createDirFails
    && w.backendAssembles
    && (forall j :: 0 <= j < |c.inputs| ==> c.inputs[j].1)
    && FlakeJson !in w.writeFails && DevenvJson !in w.writeFails && ImportsTxt !in w.writeFails
    && (|c.options| > 0 ==> RenderOverlay(c.options).Success? && CliOptionsNix !in w.writeFails)
    && DevenvFlake !in w.writeFails
  }

  /**
   * The flake is the template with its placeholder replaced by the variable
   * block, whose version is the one of the shipped `direnvrc`; the text around
   * the placeholder is kept.
   */
  lemma FlakeSplicesVars(c: Settings, isTesting: bool, a: string, b: string)
    requires c.flakeTemplate == a + VarsMarker + b
    requires forall i :: 0 <= i < |a| ==> !StartsWith((a + VarsMarker + b)[i..], VarsMarker)
    requires !Contains(b, VarsMarker)
    ensures FlakeText(c, isTesting) == a + FlakeVars(c.flake, isTesting, DirenvrcVersion(Shipped(c.direnvrc))) + b
  {
    var vars := FlakeVars(c.flake, isTesting, DirenvrcVersion(Shipped(c.direnvrc)));
    ReplaceAllFirst(a, VarsMarker, b, vars);
  }

  /** The variable block opens with the devenv version and closes with the `direnvrc` version. */
  lemma FlakeVarsEnds(f: FlakeSettings, isTesting: bool, direnvrcVersion: nat)
    ensures StartsWith(FlakeVars(f, isTesting, direnvrcVersion), VarLine("version", Quoted(f.version)))
    ensures EndsWith(FlakeVars(f, isTesting, direnvrcVersion),
                     VarLine("devenv_direnvrc_latest_version", NatToString(direnvrcVersion)))
  {
    ConcatEnds(VarLine("version", Quoted(f.version)), FlakeMiddle(f, isTesting),
               VarLine("devenv_direnvrc_latest_version", NatToString(direnvrcVersion)));
  }

  /** A template without the placeholder is written unchanged. */
  lemma FlakeWithoutMarker(c: Settings, isTesting: bool)
    requires !Contains(c.flakeTemplate, VarsMarker)
    ensures FlakeText(c, isTesting) == c.flakeTemplate
  {
  }

  /** Once assembled, `assemble` succeeds and changes nothing. */
  lemma AssembleFastPath(s: State, c: Settings, w: World, isTesting: bool)
    requires s.assembled
    ensures AssembleSpec(s, c, w, isTesting) == (s, Pass)
  {
  }

  /**
   * From an unassembled state, `assemble` succeeds exactly when every step
   * succeeds, the flag ends up set exactly on success, and it stays clear on
   * every failure.
   */
  lemma AssembleFlag(s: State, c: Settings, w: World, isTesting: bool)
    requires !s.assembled
    ensures var r := AssembleSpec(s, c, w, isTesting);
            && (r.1 == Pass <==> StepsSucceed(c, w))
            && (r.0.assembled <==> r.1 == Pass)
  {

  }

  /** Without `--option` and without `devenv.nix`, `assemble` fails first and changes nothing. */
  lemma AssembleMissingDevenvNix(s: State, c: Settings, w: World, isTesting: bool)
    requires !s.assembled && |c.options| == 0 && !w.devenvNixExists
    ensures AssembleSpec(s, c, w, isTesting) == (s, Fail(MissingDevenvNix))
  {
  }

  /** With `--option` given, whether `devenv.nix` exists makes no difference. */
  lemma AssembleOptionsSkipCheck(s: State, c: Settings, w: World, isTesting: bool)
    requires |c.options| > 0
    ensures AssembleSpec(s, c, w, isTesting) == AssembleSpec(s, c, w.(devenvNixExists := true), isTesting)
    ensures AssembleSpec(s, c, w, isTesting) == AssembleSpec(s, c, w.(devenvNixExists := false), isTesting)
  {
    RecordsIgnoreCheck(s.(dirs := s.dirs + {DotGc}), c, w, isTesting, true);
    RecordsIgnoreCheck(s.(dirs := s.dirs + {DotGc}), c, w, isTesting, false);
  }

  /** The stages after the presence check do not look at whether `devenv.nix` exists. */
  lemma RecordsIgnoreCheck(s: State, c: Settings, w: World, isTesting: bool, b: bool)
    ensures WriteRecords(s, c, w, isTesting) == WriteRecords(s, c, w.(devenvNixExists := b), isTesting)
  {
    OverlayIgnoresCheck(RecordsState(s, c), c, w, isTesting, b);
  }

  lemma OverlayIgnoresCheck(s: State, c: Settings, w: World, isTesting: bool, b: bool)
    ensures WriteOverlay(s, c, w, isTesting) == WriteOverlay(s, c, w.(devenvNixExists := b), isTesting)
  {
    FinishIgnoresCheck(s.(files := s.files - {CliOptionsNix}), c, w, isTesting, b);
    if RenderOverlay(c.options).Success? {
      FinishIgnoresCheck(s.(files := s.files[CliOptionsNix := RenderOverlay(c.options).value]), c, w, isTesting, b);
    }
  }

  lemma FinishIgnoresCheck(s: State, c: Settings, w: World, isTesting: bool, b: bool)
    ensures FinishAssemble(s, c, w, isTesting) == FinishAssemble(s, c, w.(devenvNixExists := b), isTesting)
  {
  }

  /** An input that does not parse fails `assemble` before any file is written. */
  lemma AssembleBadInput(s: State, c: Settings, w: World, isTesting: bool)
    requires !s.assembled && (|c.options| > 0 || w.devenvNixExists)
    requires DotGc !in w.createDirFails && w.backendAssembles
    requires exists j :: 0 <= j < |c.inputs| && !c.inputs[j].1
    ensures var r := AssembleSpec(s, c, w, isTesting);
            r.1.Fail? && r.1.error.InputParseFailed? && r.0.files == s.files && !r.0.assembled
  {
  }

  /**
   * An invalid `--option` fails `assemble` with the overlay's error, after the
   * three records are written, which stay written; the flag stays clear.
   */
  lemma AssembleInvalidOption(s: State, c: Settings, w: World, isTesting: bool)
    requires !s.assembled && |c.options| > 0
    requires DotGc !in w.createDirFails && Runtime !in w.createDirFails && w.backendAssembles
    requires forall j :: 0 <= j < |c.inputs| ==> c.inputs[j].1
    requires FlakeJson !in w.writeFails && DevenvJson !in w.writeFails && ImportsTxt !in w.writeFails
    requires RenderOverlay(c.options).Failure?
    ensures var r := AssembleSpec(s, c, w, isTesting);
            && r.1 == Fail(InvalidOption(RenderOverlay(c.options).error))
            && !r.0.assembled
            && r.0.files == s.files[FlakeJson := c.flakeInputsJson][DevenvJson := c.configJson][ImportsTxt := Join(c.imports, "\n")]
  {
    assert FirstBadInput(c.inputs).None?;
  }

  /** The files `assemble` may write or remove. */
  const AssembleFiles: set<FileId> := {FlakeJson, DevenvJson, ImportsTxt, CliOptionsNix, DevenvFlake}

  /**
   * Whatever its outcome, `assemble` leaves every other file as it was, takes
   * no file away except a stale `cli-options.nix`, removes no directory, and
   * leaves the flag clear when it fails.
   */
  lemma AssembleKeepsFiles(s: State, c: Settings, w: World, isTesting: bool)
    ensures var r := AssembleSpec(s, c, w, isTesting);
            && (r.1.Fail? ==> !r.0.assembled)
            && r.0.files - AssembleFiles == s.files - AssembleFiles
            && s.files.Keys - {CliOptionsNix} <= r.0.files.Keys
            && s.dirs <= r.0.dirs
  {
    if !s.assembled && !(|c.options| == 0 && !w.devenvNixExists) && DotGc !in w.createDirFails {
      RecordsKeepFiles(s.(dirs := s.dirs + {DotGc}), c, w, isTesting);
    }
  }

  /** `s` and `t` agree outside the files of `assemble`, and `t` lost no file but `cli-options.nix`. */
  predicate Keeps(s: State, t: State)
  {
    && t.files - AssembleFiles == s.files - AssembleFiles
    && s.files.Keys - {CliOptionsNix} <= t.files.Keys
    && s.dirs <= t.dirs
  }

  lemma WriteKeeps(s: State, f: FileId, text: string)
    requires f in AssembleFiles
    ensures Keeps(s, s.(files := s.files[f := text]))
  {
    assert s.files[f := text] - AssembleFiles == s.files - AssembleFiles;
  }

  lemma KeepsTrans(s: State, t: State, u: State)
    requires Keeps(s, t) && Keeps(t, u)
    ensures Keeps(s, u)
  {
  }

  lemma RecordsKeepFiles(s: State, c: Settings, w: World, isTesting: bool)
    ensures var r := WriteRecords(s, c, w, isTesting);
            (r.1.Fail? ==> r.0.assembled == s.assembled) && Keeps(s, r.0)
  {
    if w.backendAssembles && FirstBadInput(c.inputs).None? && FlakeJson !in w.writeFails {
      var s2 := s.(files := s.files[FlakeJson := c.flakeInputsJson]);
      WriteKeeps(s, FlakeJson, c.flakeInputsJson);
      if DevenvJson !in w.writeFails {
        var s3 := s2.(files := s2.files[DevenvJson := c.configJson]);
        WriteKeeps(s2, DevenvJson, c.configJson);
        KeepsTrans(s, s2, s3);
        if ImportsTxt !in w.writeFails {
          var s4 := s3.(files := s3.files[ImportsTxt := Join(c.imports, "\n")]);
          WriteKeeps(s3, ImportsTxt, Join(c.imports, "\n"));
          KeepsTrans(s, s3, s4);
          if Runtime !in w.createDirFails {
            var s5 := s4.(dirs := s4.dirs + {Runtime});
            OverlayKeepsFiles(s5, c, w, isTesting);
            KeepsTrans(s, s4, s5);
            KeepsTrans(s, s5, WriteOverlay(s5, c, w, isTesting).0);
          }
        }
      }
    }
  }

  lemma OverlayKeepsFiles(s: State, c: Settings, w: World, isTesting: bool)
    ensures var r := WriteOverlay(s, c, w, isTesting);
            (r.1.Fail? ==> r.0.assembled == s.assembled) && Keeps(s, r.0)
  {
    if |c.options| == 0 {
      var t := s.(files := s.files - {CliOptionsNix});
      assert t.files - AssembleFiles == s.files - AssembleFiles;
      FinishKeepsFiles(t, c, w, isTesting);
      KeepsTrans(s, t, FinishAssemble(t, c, w, isTesting).0);
    } else if RenderOverlay(c.options).Success? && CliOptionsNix !in w.writeFails {
      var t := s.(files := s.files[CliOptionsNix := RenderOverlay(c.options).value]);
      WriteKeeps(s, CliOptionsNix, RenderOverlay(c.options).value);
      FinishKeepsFiles(t, c, w, isTesting);
      KeepsTrans(s, t, FinishAssemble(t, c, w, isTesting).0);
    }
  }

  lemma FinishKeepsFiles(s: State, c: Settings, w: World, isTesting: bool)
    ensures var r := FinishAssemble(s, c, w, isTesting);
            (r.1.Fail? ==> r.0.assembled == s.assembled) && Keeps(s, r.0)
  {
    if DevenvFlake !in w.writeFails {
      WriteKeeps(s, DevenvFlake, FlakeText(c, isTesting));
    }
  }

  /** A successful first `assemble` writes every file with the text the configuration calls for. */
  lemma AssembleWrites(s: State, c: Settings, w: World, isTesting: bool)
    requires !s.assembled && AssembleSpec(s, c, w, isTesting).1 == Pass
    ensures var t := AssembleSpec(s, c, w, isTesting).0;
            && t.assembled && t.dirs == s.dirs + {DotGc, Runtime}
            && FlakeJson in t.files && t.files[FlakeJson] == c.flakeInputsJson
            && DevenvJson in t.files && t.files[DevenvJson] == c.configJson
            && ImportsTxt in t.files && t.files[ImportsTxt] == Join(c.imports, "\n")
            && DevenvFlake in t.files && t.files[DevenvFlake] == FlakeText(c, isTesting)
            && (CliOptionsNix in t.files <==> |c.options| > 0)
            && (|c.options| > 0 ==> t.files[CliOptionsNix] == RenderOverlay(c.options).value)
  {
    var s1 := s.(dirs := s.dirs + {DotGc});
    assert AssembleSpec(s, c, w, isTesting) == WriteRecords(s1, c, w, isTesting);
    RecordsWrites(s1, c, w, isTesting);
    var s5 := RecordsState(s1, c);
    RecordsStateFiles(s1, c);
    OverlayWrites(s5, c, w, isTesting);
    assert s5.dirs == s.dirs + {DotGc, Runtime};
  }

  lemma RecordsStateFiles(s: State, c: Settings)
    ensures var t := RecordsState(s, c).files;
            && FlakeJson in t && t[FlakeJson] == c.flakeInputsJson
            && DevenvJson in t && t[DevenvJson] == c.configJson
            && ImportsTxt in t && t[ImportsTxt] == Join(c.imports, "\n")
  {
  }

  /** The state after the three records and the runtime directory. */
  function RecordsState(s: State, c: Settings): State
  {
    s.(files := s.files[FlakeJson := c.flakeInputsJson][DevenvJson := c.configJson][ImportsTxt := Join(c.imports, "\n")],
       dirs := s.dirs + {Runtime})
  }

  /** When the records stage gets through, it has written the three records and hands over to the overlay stage. */
  lemma RecordsWrites(s: State, c: Settings, w: World, isTesting: bool)
    requires WriteRecords(s, c, w, isTesting).1 == Pass
    ensures WriteRecords(s, c, w, isTesting) == WriteOverlay(RecordsState(s, c), c, w, isTesting)
  {
  }

  /** On success the overlay stage writes `cli-options.nix` exactly when there are options, then the flake. */
  lemma OverlayWrites(s: State, c: Settings, w: World, isTesting: bool)
    requires WriteOverlay(s, c, w, isTesting).1 == Pass
    ensures var t := WriteOverlay(s, c, w, isTesting).0;
            && t.assembled && t.dirs == s.dirs
            && (forall f :: f in s.files && f != CliOptionsNix && f != DevenvFlake ==> f in t.files && t.files[f] == s.files[f])
            && DevenvFlake in t.files && t.files[DevenvFlake] == FlakeText(c, isTesting)
            && (CliOptionsNix in t.files <==> |c.options| > 0)
            && (|c.options| > 0 ==> t.files[CliOptionsNix] == RenderOverlay(c.options).value)
  {
    if |c.options| == 0 {
      FinishWrites(s.(files := s.files - {CliOptionsNix}), c, w, isTesting);
    } else {
      FinishWrites(s.(files := s.files[CliOptionsNix := RenderOverlay(c.options).value]), c, w, isTesting);
    }
  }

  /** On success the last stage writes the flake and sets the flag, and nothing else. */
  lemma FinishWrites(s: State, c: Settings, w: World, isTesting: bool)
    requires FinishAssemble(s, c, w, isTesting).1 == Pass
    ensures FinishAssemble(s, c, w, isTesting).0 == s.(files := s.files[DevenvFlake := FlakeText(c, isTesting)], assembled := true)
  {
  }

  // ---------------------------------------------------------------------
  // properties of up and down

  /** Without a pid file `down` fails and changes nothing. */
  lemma DownNotRunning(s: State, signalDelivered: bool)
    requires ProcessesPid !in s.files
    ensures DownSpec(s, signalDelivered) == (s, Failure(NotRunning))
  {
  }

  /** When the signal cannot be delivered, `down` fails with that pid and the pid file stays. */
  lemma DownSignalFails(s: State)
    requires ProcessesPid in s.files && ParseI32(s.files[ProcessesPid]).Some?
    ensures DownSpec(s, false) == (s, Failure(ProcessNotFound(ParseI32(s.files[ProcessesPid]).value)))
  {
  }

  /**
   * `down` succeeds exactly when the pid file holds an `i32` and the signal is
   * delivered; then it removes the pid file and nothing else.
   */
  lemma DownSucceeds(s: State, signalDelivered: bool)
    ensures var r := DownSpec(s, signalDelivered);
            && (r.1.Success? <==> ProcessesPid in s.files && ParseI32(s.files[ProcessesPid]).Some? && signalDelivered)
            && (r.1.Success? ==> r.0 == s.(files := s.files - {ProcessesPid})
                                 && r.1.value == ParseI32(s.files[ProcessesPid]).value)
            && (r.1.Failure? ==> r.0 == s)
  {
  }

  /**
   * `up` gets past the processes check only when the evaluation succeeds and
   * finds processes; otherwise it fails with the state `assemble` left.
   */
  lemma UpNeedsProcesses(s: State, c: Settings, w: World, processes: seq<string>, detach: bool, logToFile: bool)
    ensures var u := UpSpec(s, c, w, processes, detach, logToFile);
            && (u.1.Success? ==> w.hasProcesses == Some(true) && w.procfileScript.Some?)
            && (w.hasProcesses != Some(true) ==> u.1.Failure? && u.0 == AssembleSpec(s, c, w, false).0)
            && (AssembleSpec(s, c, w, false).1.Pass? && w.hasProcesses.None? ==> u.1 == Failure(BackendFailed))
  {
  }

  /** A detached `up` writes the pid of the spawned runner, in decimal, to the pid file. */
  lemma UpWritesPid(s: State, c: Settings, w: World, processes: seq<string>, logToFile: bool)
    requires UpSpec(s, c, w, processes, true, logToFile).1.Success?
    ensures var r := UpSpec(s, c, w, processes, true, logToFile);
            && w.spawnedPid.Some? && r.1.value == Detached(w.spawnedPid.value)
            && r.0.assembled
            && ProcessesPid in r.0.files && r.0.files[ProcessesPid] == NatToString(w.spawnedPid.value)
            && ProcessesScript in r.0.files
            && StartsWith(r.0.files[ProcessesScript], Shebang + TuiOff + "\n")
  {
    if !s.assembled { AssembleFlag(s, c, w, false); }
    DetachedScript(w.procfileScript.value, processes);
  }

  /** The runner script of a detached `up` switches the TUI off on its second line. */
  lemma DetachedScript(procfileScript: string, processes: seq<string>)
    ensures StartsWith(ProcessesScriptText(procfileScript, processes, true), Shebang + TuiOff + "\n")
  {
    var text := ProcessesScriptText(procfileScript, processes, true);
    var head := Shebang + TuiOff + "\n";
    assert text == head + ExecLine(procfileScript, processes);
    assert text[..|head|] == head;
  }

  /**
   * Stopping what a detached `up` started: `down` signals the same pid and
   * leaves every other file as `up` left it.
   */
  lemma UpThenDown(s: State, c: Settings, w: World, processes: seq<string>, logToFile: bool)
    requires UpSpec(s, c, w, processes, true, logToFile).1.Success?
    requires w.spawnedPid.Some? && w.spawnedPid.value <= I32Max
    ensures var u := UpSpec(s, c, w, processes, true, logToFile);
            var d := DownSpec(u.0, true);
            && d.1 == Success(w.spawnedPid.value)
            && d.0 == u.0.(files := u.0.files - {ProcessesPid})
  {
    UpWritesPid(s, c, w, processes, logToFile);
    ParseI32OfNatToString(w.spawnedPid.value);
  }
}
