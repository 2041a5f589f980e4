# devenv core in Dafny

This project models the core of `devenv`, a tool that builds developer
environments on top of Nix. The core lives in `devenv/src/devenv.rs`, and the
model covers these parts of it:

- **The `assemble` step.** `assemble` prepares the `.devenv` state directory:
  - it runs the `devenv.nix` presence check, which `--option` switches off;
  - it creates the GC and runtime directories;
  - it writes the JSON and import records;
  - it renders the command-line options into `cli-options.nix`;
  - it writes the generated flake;
  - it sets the one-shot `assembled` flag.

  `Assembly.Devenv` is a class over that state (the flag, a map from the
  managed files to their text, the created directories). Its methods are
  proved equal to pure specification functions, and the lemmas are stated
  about those functions.
- **The `--option` overlay** of `assemble` (`CliOptions`):
  - values are taken in pairs;
  - a `path:type` key is split at `:`;
  - there are seven supported types;
  - `lib.mkForce` is applied to every type except `pkgs`;
  - the first bad pair aborts the rendering.
- **`DIRENVRC` and `DIRENVRC_VERSION`** (`Direnvrc`): the rolling-upgrade
  switch is turned on, and the version is read from the first marker line.
- **`build`'s attribute list** (`BuildAttrs`): `flatten_object`, checked
  against an independent key-chain definition of the leaves of a JSON value.
- **The shell environment** (`ShellEnv`):
  - the `env` dump is parsed line by line and merged over the ambient
    variables in `capture_shell_environment`;
  - `prepare_shell` applies its clean/keep filter to the shell it starts.
- **Garbage collection** (`Gc`): `cleanup_symlinks` sorts the GC root
  directory into live targets and dangling links, and `gc` drives the backend
  with the live targets.
- **Processes** (part of `Assembly`): `up` writes the runner script and, when
  detached, the pid file; `down` stops the runner and removes the pid file.
- **Containers** (`Containers`): `sanitize_container_name`, the GC roots and
  attributes of the three container stages, and the copy-script arguments.
- **Search** (`Search`): the package rows of `search_packages` and the option
  filter of `search_options`.

`Common` holds `Option`, `Result` and `Outcome`. `Strings` models the Rust
string operations the core relies on:

- `split`, `splitn(2, …)` and `split(…).next_back()`;
- `lines`, `trim` and `split_whitespace`;
- `contains` and `replace`;
- decimal printing and `parse::<u8>` / `parse::<i32>`.

The Nix backend, the file system and the operating system are not called.
Each of their answers is a parameter:

- `Assembly.World` says whether `devenv.nix` exists, which directory or file
  operation fails, whether the backend initialises, whether evaluating
  `devenv.processes` fails or finds processes, the built `procfileScript`,
  and the pid of a spawned process;
- the GC directory is a sequence of `Gc.Entry` values, listed before and after
  collection;
- for `build`, whether evaluating `build` succeeds, its output as a
  `BuildAttrs.Json` value (none when it does not parse), and the paths the
  backend build returns (none when it fails);
- for the container commands, the set of stages whose backend build fails;
- for `gc`, whether the backend collection succeeds;
- the ambient environment is a map.

Three facts about the code shape the model:

- In clean mode, `capture_shell_environment` removes the keep-listed
  variables from the ambient base it merges over, while `prepare_shell` keeps
  only them (`ShellEnv.CleanModeAsymmetry`).
- `cleanup_symlinks` only collects dangling links; nothing deletes them, so
  `Gc` removes nothing.
- `gc` returns nothing but logs three counts. `Gc.GcFound` holds the two
  logged before collection (the active environments and the dangling links),
  and the result of `Gc.GcSpec` is the count logged afterwards.

## Model

| member | source | states |
|---|---|---|
| CliOptions.Pairs | devenv/src/devenv.rs:1169 | `chunks_exact(2)`: there are `⌊n/2⌋` pairs, and pair `i` is elements `2i` and `2i+1` |
| CliOptions.RenderValue | devenv/src/devenv.rs:1181-1201 | a value renders exactly when its type is one of the seven supported types; any other type fails with `UnsupportedType` naming it |
| CliOptions.RenderOverlay | devenv/src/devenv.rs:1164-1213 | a rendered overlay opens with the `{ pkgs, lib, config, ... }: {` header line and ends with the closing `}` line |
| CliOptions.BuildOverlay | devenv/src/devenv.rs:1163-1213 | the `push_str` loop over the pairs returns exactly the overlay `RenderOverlay` defines, or its first error |
| CliOptions.RenderEntriesStep | devenv/src/devenv.rs:1169-1211 | one more pair either appends its line or stops with that pair's error |
| CliOptions.RenderEntriesPrefixFailure | devenv/src/devenv.rs:1172-1201 | once a pair fails, the later pairs do not matter |
| CliOptions.EntryFailsIff | devenv/src/devenv.rs:1170-1201 | a pair fails iff its key has no `:` (`InvalidFormat` with the key) or its type is unsupported (`UnsupportedType` with the type) |
| CliOptions.EntryShape | devenv/src/devenv.rs:1177-1210 | a valid pair renders as `  <path> = <value>;` followed by a newline, where the path is the text before the first `:` |
| CliOptions.RenderEntriesSuccess | devenv/src/devenv.rs:1169-1211 | when every pair renders, the body is the concatenation of their lines in order |
| CliOptions.RenderEntriesFirstFailure | devenv/src/devenv.rs:1169-1201 | the rendering fails with the error of the first failing pair |
| CliOptions.RenderOverlayFailsIff | devenv/src/devenv.rs:1169-1201 | the overlay fails iff some pair fails |
| CliOptions.FirstFailing | devenv/src/devenv.rs:1169-1201 | a failing rendering has a first failing pair, and every earlier pair renders |
| CliOptions.RenderOverlayShape | devenv/src/devenv.rs:1164-1213 | a successful overlay is the header, the lines of all pairs in order, then the footer |
| CliOptions.TrailingOptionIgnored | devenv/src/devenv.rs:1169 | a trailing unpaired option changes nothing |
| CliOptions.PkgsRendersWordList | devenv/src/devenv.rs:1188-1195 | a `pkgs` value given as space-separated words renders as `[ pkgs.w1 pkgs.w2 … ]` |
| CliOptions.KeyParts | devenv/src/devenv.rs:1171-1179 | the key `path:type` (with a path free of `:`) has that path and that type |
| CliOptions.EntryOfParts | devenv/src/devenv.rs:1171-1210 | the line of `path:type` is built from the value of that type, forced except for `pkgs` |
| CliOptions.PkgsEntryUnforced | devenv/src/devenv.rs:1188-1210 | a `pkgs` entry is not wrapped in `lib.mkForce` |
| CliOptions.OtherEntryForced | devenv/src/devenv.rs:1181-1210 | every other supported type is wrapped in `lib.mkForce` |
| CliOptions.StringOverlay | devenv/src/devenv.rs:1164-1213 | one `string` option yields the header, `  path = lib.mkForce "raw";`, and the footer |
| CliOptions.PkgsOverlayExample | devenv/src/devenv.rs:1188-1210 | `path:pkgs` with `a b` renders as `  path = [ pkgs.a pkgs.b ];` |
| Direnvrc.Shipped | devenv/src/devenv.rs:33-38 | the shipped script holds no rolling-upgrade off switch, whatever the embedded text, and has its length; a text without the switch ships unchanged |
| Direnvrc.SwitchShapes | devenv/src/devenv.rs:35-36 | the two switches have the same length, the off switch's final `0` is absent from the on switch, and the on switch's final `1` is absent from the rest of the off switch |
| Direnvrc.FindLine | devenv/src/devenv.rs:42 | `find` gives the first line containing the marker, or none when no line contains it |
| Direnvrc.DirenvrcVersion | devenv/src/devenv.rs:39-47 | the version is a `u8` |
| Direnvrc.MarkerLineVersion | devenv/src/devenv.rs:42-45 | the line `export DEVENV_DIRENVRC_VERSION=<n>` contains the marker and reads back as `n` |
| Direnvrc.VersionOfMarkerLine | devenv/src/devenv.rs:39-47 | a script whose first marker line is `export DEVENV_DIRENVRC_VERSION=<n>` has version `n` |
| Direnvrc.VersionWithoutMarker | devenv/src/devenv.rs:46 | without a marker line the version is 0 |
| Direnvrc.FirstMatchAt | devenv/src/devenv.rs:42 | the search stops at the first matching line |
| Strings.AfterLastSeparated | devenv/src/devenv.rs:43 | `next_back` of a split at `c` is exactly the text after the last `c` |
| Assembly.FirstBadInput | devenv/src/devenv.rs:1130-1139 | there is a failing input iff some input does not parse, and the one named is the first input, in the given order, that does not parse |
| Assembly.Devenv.constructor | devenv/src/devenv.rs:175 | a new instance starts with the flag clear |
| Assembly.Devenv.WriteFile | devenv/src/devenv.rs:1141-1154 | a file write succeeds unless the world makes it fail, and changes only that file |
| Assembly.Devenv.CreateDir | devenv/src/devenv.rs:1121-1158 | a directory creation succeeds unless the world makes it fail, and adds only that directory |
| Assembly.Devenv.Assemble | devenv/src/devenv.rs:1105-1259 | the new flag, files and directories, and the outcome, are exactly those of `AssembleSpec` |
| Assembly.Devenv.Up | devenv/src/devenv.rs:976-1073 | the new state and the result are exactly those of `UpSpec` |
| Assembly.Devenv.Down | devenv/src/devenv.rs:1076-1103 | the new state and the result are exactly those of `DownSpec` |
| Assembly.AssembleFastPath | devenv/src/devenv.rs:1106-1108 | once assembled, `assemble` succeeds and changes nothing |
| Assembly.AssembleFlag | devenv/src/devenv.rs:1113-1257 | a first `assemble` succeeds iff every step succeeds, and the flag is set iff it succeeds |
| Assembly.AssembleMissingDevenvNix | devenv/src/devenv.rs:1113-1119 | without options and without `devenv.nix`, it fails first and changes nothing |
| Assembly.AssembleOptionsSkipCheck | devenv/src/devenv.rs:1112-1113 | with options given, whether `devenv.nix` exists makes no difference |
| Assembly.AssembleBadInput | devenv/src/devenv.rs:1130-1139 | an input that does not parse fails before any file is written, and the flag stays clear |
| Assembly.AssembleInvalidOption | devenv/src/devenv.rs:1141-1215 | an invalid option fails with the overlay's error after the three records are written |
| Assembly.AssembleKeepsFiles | devenv/src/devenv.rs:1105-1259 | whatever the outcome, no unmanaged file changes, no file is lost except `cli-options.nix`, no directory goes away, and a failure leaves the flag clear |
| Assembly.AssembleWrites | devenv/src/devenv.rs:1121-1257 | a successful first `assemble` creates both directories and writes each managed file with its configured text, writing `cli-options.nix` iff there are options, and sets the flag |
| Assembly.OverlayWrites | devenv/src/devenv.rs:1163-1257 | the overlay stage writes (or removes) `cli-options.nix` and then the flake, and keeps every other file |
| Assembly.FlakeVarsEnds | devenv/src/devenv.rs:1227-1252 | the variable block opens with the `version` line and closes with the `devenv_direnvrc_latest_version` line holding the given `direnvrc` version |
| Assembly.FlakeSplicesVars | devenv/src/devenv.rs:1226-1253 | a template with one placeholder becomes the text before it, the variable block with the shipped `direnvrc` version, and the text after it |
| Assembly.FlakeWithoutMarker | devenv/src/devenv.rs:1253 | a template without the placeholder is written unchanged |
| Assembly.DownNotRunning | devenv/src/devenv.rs:1077-1080 | without a pid file, `down` fails and changes nothing |
| Assembly.DownSignalFails | devenv/src/devenv.rs:1091-1097 | when the signal fails, `down` fails with that pid and leaves the pid file in place |
| Assembly.DownSucceeds | devenv/src/devenv.rs:1082-1101 | `down` succeeds iff the pid file holds an `i32` and the signal is delivered; it then removes the pid file and nothing else, and every failure changes nothing |
| Assembly.UpNeedsProcesses | devenv/src/devenv.rs:981-985 | `up` gets past its processes check only when evaluating `devenv.processes` succeeds and finds processes; otherwise it fails with the state `assemble` left, a failed evaluation with the backend's error |
| Assembly.UpWritesPid | devenv/src/devenv.rs:1009-1064 | a detached `up` assembles, writes the runner script with the TUI switched off, and writes the spawned pid in decimal to the pid file |
| Assembly.DetachedScript | devenv/src/devenv.rs:1005-1021 | a detached runner script starts with the shebang and `export PC_TUI_ENABLED=0` |
| Assembly.UpThenDown | devenv/src/devenv.rs:1058-1101 | `down` after a detached `up` signals the spawned pid and removes only the pid file |
| BuildAttrs.BuildCommand | devenv/src/devenv.rs:929-972 | `build` succeeds iff the backend build succeeds and either attributes are named or the evaluation succeeds with an object; it then yields the built paths, a failed evaluation fails with `EvalFailed`, and a failed build after a good attribute list with `BuildFailed` |
| BuildAttrs.NamedSkipsEval | devenv/src/devenv.rs:929-957 | with attributes named, the evaluation of `build` does not affect the outcome |
| BuildAttrs.BuildAttributes | devenv/src/devenv.rs:929-963 | named attributes are used as given under `devenv.`; otherwise unparsable output and non-object output fail with distinct errors |
| BuildAttrs.FlattenIsLeaves | devenv/src/devenv.rs:939-948 | `flatten_object` gives one name per leaf, in order: `devenv.`, then the prefix, then the leaf's keys joined by `.` |
| BuildAttrs.FlattenEntriesIsLeaves | devenv/src/devenv.rs:941-945 | the `flat_map` over an object's entries is the concatenation of each entry's leaves under its key |
| BuildAttrs.FlattenTopIsLeaves | devenv/src/devenv.rs:937-951 | the top-level attribute list names every leaf of the `build` object by its key chain joined by `.` |
| BuildAttrs.ChainsNonEmpty | devenv/src/devenv.rs:937-951 | every key chain of the top-level object has at least its top key |
| BuildAttrs.BuildAttributesPrefixed | devenv/src/devenv.rs:929-963 | every attribute `build` passes on starts with `devenv.` |
| BuildAttrs.ExplicitOneToOne | devenv/src/devenv.rs:953-957 | named attributes map one to one, in order, to `devenv.<attr>` |
| BuildAttrs.EmptyAndLeaf | devenv/src/devenv.rs:940-947 | an empty object contributes no attribute, and a non-object contributes exactly its prefix |
| BuildAttrs.FlattenCount | devenv/src/devenv.rs:939-948 | the number of attributes is the number of leaves |
| BuildAttrs.JoinDotted | devenv/src/devenv.rs:943 | the repeated `prefix.k` formatting is the key chain joined by `.` |
| ShellEnv.ParseEnvFile | devenv/src/devenv.rs:829-836 | the `while let` loop yields the pairs of every line containing `=`, in order |
| ShellEnv.Merge | devenv/src/devenv.rs:852-854 | the insert loop returns the base with every pair inserted in order |
| ShellEnv.CaptureShellEnvironment | devenv/src/devenv.rs:826-856 | the captured environment is the captured pairs over the policy's ambient base |
| ShellEnv.SplitAtFirstEquals | devenv/src/devenv.rs:832-835 | a line splits at its first `=` only: the name has no `=`, the value may contain more |
| ShellEnv.LineWithoutEquals | devenv/src/devenv.rs:833 | a line without `=` is dropped |
| ShellEnv.CapturedPairsConcat | devenv/src/devenv.rs:831-836 | the pairs of consecutive groups of lines are concatenated |
| ShellEnv.OverlayKeys | devenv/src/devenv.rs:852-854 | the result holds exactly the base names and the captured names |
| ShellEnv.CapturedWins | devenv/src/devenv.rs:852-854 | a captured pair wins over the ambient value and over earlier pairs for the same name |
| ShellEnv.AmbientKept | devenv/src/devenv.rs:839-854 | an ambient value that nothing captured overrides is kept |
| ShellEnv.CaptureBaseKeys | devenv/src/devenv.rs:838-850 | in clean mode the base is the ambient variables minus the kept ones, otherwise all of them, with their values |
| ShellEnv.ShellCommandEnvKeys | devenv/src/devenv.rs:362-378 | the shell gets `SHELL` set to bash; in clean mode it gets exactly the kept ambient variables (plus `DEVENV_CMDLINE`), otherwise all of them, each with its ambient value |
| ShellEnv.CleanModeAsymmetry | devenv/src/devenv.rs:838-850 | in clean mode, a kept variable that nothing captured reaches the shell but is missing from the captured environment |
| ShellEnv.CapturedLineWins | devenv/src/devenv.rs:829-856 | a line `name=value` sets `name` to `value` unless a later line sets it again |
| Gc.CleanupSymlinks | devenv/src/devenv.rs:1381-1403 | the loop returns the live targets and the dangling links of the directory, in order; a missing root is created empty |
| Gc.RunGc | devenv/src/devenv.rs:567-611 | `gc` hands the live targets to the backend, and its logged counts and outcome are those of `GcSpec` |
| Gc.CleanupConcat | devenv/src/devenv.rs:1390-1400 | the lists of consecutive parts of a directory are concatenated |
| Gc.Partition | devenv/src/devenv.rs:1390-1400 | every symlink lands in exactly one of the two lists |
| Gc.LiveLink | devenv/src/devenv.rs:1395-1397 | a live link contributes its canonical target, and only to the live list |
| Gc.DanglingLink | devenv/src/devenv.rs:1393-1394 | a dangling link contributes its path, and only to the dangling list |
| Gc.OtherIgnored | devenv/src/devenv.rs:1392 | an entry that is not a symlink appears in neither list |
| Gc.OneLiveOneDangling | devenv/src/devenv.rs:1390-1400 | one live link, one dangling link and a plain file give one target and one dangling path |
| Gc.GcReportsRemoved | devenv/src/devenv.rs:581-607 | `gc` logs the number of live links and of dangling links, and, when the live set did not grow, the drop in live links as the removed count |
| Gc.RemovedCount | devenv/src/devenv.rs:607 | the removed count exists iff the live set did not grow, and then adds up with the links left to the links before |
| Gc.GcFoundCountsSymlinks | devenv/src/devenv.rs:581-587 | the two counts logged before collection add up to the number of symlinks in the root |
| Gc.GcBackendFails | devenv/src/devenv.rs:598 | a backend failure fails `gc`, after the same counts are logged as on success |
| Containers.Sanitize | devenv/src/devenv.rs:1375-1379 | the sanitized name holds only alphanumerics, `-` and `_`, and is no longer than the input |
| Containers.SanitizeSubsequence | devenv/src/devenv.rs:1375-1379 | the sanitized name is the input with characters deleted, the rest kept in order |
| Containers.SanitizeCounts | devenv/src/devenv.rs:1377 | every allowed character is kept as often as it occurs, and no other character survives |
| Containers.SanitizeIdempotent | devenv/src/devenv.rs:1375-1379 | sanitizing twice is sanitizing once |
| Containers.SanitizeAllowed | devenv/src/devenv.rs:1377 | a name made only of allowed characters is unchanged |
| Containers.SanitizeConcat | devenv/src/devenv.rs:1376-1378 | sanitizing works character by character |
| Containers.SharedRoots | devenv/src/devenv.rs:440-442 | names that differ only in disallowed characters share their GC roots |
| Containers.GcRootIsFileName | devenv/src/devenv.rs:440-442 | a container GC root name has no `/`, so every root is a file directly in the GC directory |
| Containers.Builds | devenv/src/devenv.rs:425-430 | the build plan of every container command is refused on macOS, with the macOS error, before anything is built, and exists on every other platform |
| Containers.Command | devenv/src/devenv.rs:425-545 | a command fails with the macOS error iff it runs on macOS, and then asks for no build; elsewhere it asks for at least the derivation build and at most one build per stage |
| Containers.RunStages | devenv/src/devenv.rs:446-545 | the stages whose builds are asked for are a prefix of the command's stages, taken in order |
| Containers.RunStagesOutcome | devenv/src/devenv.rs:446-545 | the run succeeds iff no stage fails, and then builds every stage; a failed run stops at the first failing stage and ends with that stage's error |
| Containers.CommandFollowsPlan | devenv/src/devenv.rs:425-545 | off macOS, the builds a command asks for are a prefix of its plan, and all of it when it succeeds |
| Containers.DerivationFailureStops | devenv/src/devenv.rs:444-452 | a failing derivation build ends every container command before anything else is built |
| Containers.BuildsExtend | devenv/src/devenv.rs:466-540 | copy builds the derivation and then the copy script; run builds those and then the run script |
| Containers.CopyArgs | devenv/src/devenv.rs:490-494 | the copy script gets the image path, then the registry (`false` when none), then the extra arguments unchanged |
| Containers.CopyArgsOrder | devenv/src/devenv.rs:492-494 | each extra argument keeps its position, after the two fixed ones |
| Containers.RunCopyArgs | devenv/src/devenv.rs:521-525 | `container_run` gives the copy script the image path, `docker-daemon:` and the extra arguments, whatever registry it was given |
| Search.Skip2 | devenv/src/devenv.rs:694 | `skip(2)` leaves nothing of two segments or fewer, and otherwise drops exactly the first two |
| Search.Description | devenv/src/devenv.rs:697 | a description keeps at most its first 80 characters, and a short one is unchanged |
| Search.PackageRows | devenv/src/devenv.rs:688-698 | there is one row per search result, in order, built from that result |
| Search.PackageNameOfKey | devenv/src/devenv.rs:692-695 | the key `<set>.<system>.<attr>` names the package `pkgs.<attr>`, whatever dots `<attr>` holds |
| Search.ShortKey | devenv/src/devenv.rs:692-695 | a key with fewer than two dots names just `pkgs.` |
| Search.RowsShape | devenv/src/devenv.rs:691-697 | every package name starts with `pkgs.`, each description is a prefix of the original of at most 80 characters, and the version is copied |
| Search.OptionRows | devenv/src/devenv.rs:664-674 | every option row's name contains the query |
| Search.OptionRowsComplete | devenv/src/devenv.rs:667 | every option whose name contains the query has a row |
| Search.OptionRowsSound | devenv/src/devenv.rs:664-674 | every row comes from an option |
| Search.EmptyQueryKeepsAll | devenv/src/devenv.rs:667 | the empty query keeps every option |
| Strings.SplitOnce | devenv/src/devenv.rs:832-833 | `splitn(2, '=')` finds no pair iff the line has no `=`; otherwise the key has no `=` and key, `=`, value is the line |
| Strings.AfterLast | devenv/src/devenv.rs:43 | `split(c).next_back()` holds no `c`, and is the whole text when the text has no `c` |
| Strings.AfterLastSuffix | devenv/src/devenv.rs:43 | `split(c).next_back()` is the whole text, or the text is a prefix, a `c` and that piece |
| Strings.ParseU8 | devenv/src/devenv.rs:45 | `parse::<u8>` accepts exactly the decimals of at most 255 |
| Strings.ParseI32 | devenv/src/devenv.rs:1082-1087 | every value `parse::<i32>` accepts lies within the `i32` range |
| Strings.ParseI32OfNatToString | devenv/src/devenv.rs:1058-1087 | a pid written in decimal parses back to itself |
| Strings.Lines | devenv/src/devenv.rs:41 | `lines()` yields pieces free of newlines |
| Strings.LinesUnlines | devenv/src/devenv.rs:41 | the lines of newline-joined lines are those lines |
| Strings.Trim | devenv/src/devenv.rs:44 | the trimmed text is no longer than the original and neither starts nor ends with whitespace |
| Strings.TrimPadded | devenv/src/devenv.rs:44 | a text padded with whitespace on both sides trims to the text itself |
| Strings.ReplaceAll | devenv/src/devenv.rs:34-37 | `replace` leaves a text without the pattern unchanged |
| Strings.ReplaceAllRemoves | devenv/src/devenv.rs:34-37 | no occurrence of the pattern is left when the pattern's last character is absent from the replacement, the replacement's last character is absent from the rest of the pattern, and both have one length |
| Strings.ReplaceAllLength | devenv/src/devenv.rs:34-37 | a replacement as long as the pattern keeps the length of the text |
| Strings.ReplaceAllFirst | devenv/src/devenv.rs:1253 | the text before the first occurrence is kept, the occurrence becomes the replacement, and the rest is replaced in turn |
| Strings.JoinSplit | devenv/src/devenv.rs:694 | joining the pieces of a split with the separator gives back the text |
| Strings.SplitWhitespaceJoin | devenv/src/devenv.rs:1190-1191 | `split_whitespace` of words joined by spaces gives back the words |

## Left out

- Concurrency is not modelled: the `assemble_lock` semaphore, the `AtomicBool` orderings, the `OnceCell` of `has_processes` and the concurrent `try_join!` in `search`. The flag is modelled sequentially, and the flag is not re-checked after the permit, as written.
- The Nix backend is not called. The answers that are parameters: whether `assemble` initialises, the evaluation of `devenv.processes` in `up`, the `procfileScript` build, the evaluation and the build in `build`, each container stage's build, and `gc`. The backend's `search`, `dev_env` and `optionsJSON` build are not modelled. Parsing their JSON outputs is not modelled either: `Search.PackageRows` and `Search.OptionRows` start from the parsed records. The one output read as a text is the `env` dump, which comes from a shell, not from the backend.
- BuildAttrs.BuildCommand: begins once `assemble` has succeeded; the `assemble` call at the start of `build` is modelled by `Assembly.Devenv.Assemble` and not repeated here.
- Containers.Command: the `assemble` call inside `container_build` is not repeated, and a copy script that exits with failure, which ends `container_run` before the run script is built, is not modelled, because exit statuses are not modelled.
- Process operations are not modelled: spawning, `exec`, `SIGTERM` delivery, running the copy script and the run script, and their exit statuses. The signal result and the spawned pid are parameters. A non-detached `up` that replaces itself is modelled as success.
- File system details are not modelled: canonicalisation, permissions, the locked writes, temporary directories, and `init`. The records (`flake.json`, `devenv.json`) and the flake template are given texts.
- JSON serialisation and parsing are not modelled. JSON values are an abstract datatype, and each `BTreeMap`'s key order is taken as given in the input sequence.
- Most `expect` panics on I/O are not modelled, and those operations are treated as succeeding. That includes `prepare_shell` inside `up`. The one exception is the pid-file parse in `down`, which is modelled as the error `BadPidFile`.
- The environment capture takes the `env` dump as complete. A read error that would end the `while let` loop early is not modelled.
- The SHA-256 runtime-directory name and the floating-point timing printed by `gc` are not modelled.
- Logging, tracing spans, table printing and the flake template text are not modelled. Only the variable block spliced into the flake template is modelled.
- Containers.IsAlphanumeric: Unicode alphanumerics are not modelled, only ASCII letters and digits. Non-ASCII letters that `char::is_alphanumeric` would keep are therefore dropped.
- Strings.ReplaceAll: the contracts state the identity on a text without the pattern, the length, where the replacement of the first occurrence lands, and, for patterns of the rolling-upgrade shape, that no occurrence is left. Overlapping occurrences are left to the definition.
- Gc.RemovedCount: the `usize` subtraction that would underflow when the live set grows is modelled as `None`. `Gc.GcReportsRemoved` states the count only under the precondition that the live set did not grow.
- The `search_options` rows copy the option default as given; `unwrap_or_default` on a missing default is not modelled separately.
