# gnodev precompile: a verified model

This project models `gnodev precompile`, the command that turns Gno source
files (`.gno`) into generated Go files (`.gno.gen.go`). It covers three
parts of `cmd/gnodev/precompile.go`:

- **the invocation** (`precompileApp`). The command loops over its arguments
  with two error regimes. A failing file named explicitly on the command line
  ends the run at once, with an error naming that file. A failing file found
  while walking a directory is counted, and the walk goes on. A stat error or
  a walk error ends the run at once. At the end, a positive count becomes the
  error `<n> precompile errors`.
- **the per-file pipeline** (`precompileFile`). It reads the file, runs
  `gno.Precompile` on it, writes the target file, and runs the gofmt check
  unless `SkipFmt` is set. The first stage that fails decides the outcome.
- **the target path** (`strings.TrimSuffix(src, ".gno") + ".gno.gen.go"`).

The file system, `gno.Precompile`, `gno.PrecompileVerifyFile` and
`isGnoFile` are not computed. They are supplied to the model:

- The oracles `Oracles.read`, `.precompile`, `.write` and `.verify` stand for
  those calls.
- The predicate `Env.isGno` stands for `isGnoFile`.
- Each argument arrives already classified by `os.Stat` (`Arg`).
- A directory argument carries the list of callbacks `filepath.WalkDir`
  makes for it, in walk order (`Visit`): an entry, or an error reported
  together with the path it concerns.

Modules:

- `TargetPaths` (`target_paths.dfy`): the target-path derivation.
- `FilePipeline` (`file_pipeline.dfy`): `precompileFile` as a pure function.
  It returns the outcome and the ordered list of oracle calls it made. The
  module also holds a step-by-step state machine of the same pipeline
  (Unstarted → Loaded → Transformed → Written → Done, or Failed(stage) from
  any state), and a proof that both agree.
- `PrecompileApp` (`precompile_app.dfy`): `precompileApp` as a left fold.
  The accumulator is `Running(errCount, processed)` or
  `Stopped(error, processed)`.
- `PrecompileSpec` (`precompile_spec.dfy`): a reference definition that does
  not follow the loop. It flattens the arguments into events, each tagged
  with its regime (explicit file, discovered file, stat error, walk error).
  A file event also carries the outcome `precompileFile` gives that file.
  The first fatal event decides the error; if there is none, the number of
  failing discovered files decides it. `AppMatchesSpec` proves the fold
  computes exactly this, for all inputs.
- `PrecompileProperties` (`precompile_properties.dfy`): each promise of the
  two regimes as an all-inputs lemma, plus one worked invocation.

Notes on the code (`cmd/gnodev/precompile.go`):

- Any error from `os.Stat` ends the run (lines 41-44), whatever its kind.
- Directory entries are filtered by `isGnoFile` alone (line 57). Its
  definition is not part of this model. It sees the entry's name, whether
  it is a directory, and whether it is a regular file.
- The transform error is returned as `fmt.Errorf("%w", err)` (line 100).
  Its message carries no stage label. The model still tags every failure
  with its stage, which can be seen from which oracle failed.

## Model

| member | source | states |
|---|---|---|
| TargetPaths.TrimSuffix | cmd/gnodev/precompile.go:104 | if `s` ends with the suffix, the result followed by the suffix is `s`; otherwise the result is `s` itself |
| TargetPaths.TargetPath | cmd/gnodev/precompile.go:104 | for a `.gno` source the target is `src + ".gen.go"`, otherwise `src + ".gno.gen.go"`; it always ends in `.gno.gen.go` and is longer than (so different from) the source |
| TargetPaths.SourcePath | cmd/gnodev/precompile.go:104 | removing `.gen.go` from a name that ends with it gives back the stem |
| TargetPaths.SourceOfTarget | cmd/gnodev/precompile.go:104 | for a `.gno` file, removing `.gen.go` from its target gives back the source: the derivation can be inverted |
| TargetPaths.TargetPathInjectiveOnGno | cmd/gnodev/precompile.go:104 | two distinct `.gno` files never share a generated file |
| TargetPaths.TargetCollision | cmd/gnodev/precompile.go:104 | an explicitly named file `s` without the `.gno` extension gets the same target as `s + ".gno"` |
| FilePipeline.ProcessFile | cmd/gnodev/precompile.go:82-119 | stages run strictly in the order read, transform, write, verify, each at most once; every stage before the last one run succeeded; the last one run decides the outcome (its stage and cause on failure); success means all stages required by `SkipFmt` ran; the transform gets the text the read returned, and the write puts the transformed text at the target path; verify checks that file with the configured gofmt; verify runs exactly when `SkipFmt` is off and the write succeeded |
| FilePipeline.SkipFmtNeverVerifies | cmd/gnodev/precompile.go:111-116 | with `SkipFmt`, verify is never called and a verify failure is never the outcome |
| FilePipeline.VerifyFailureFollowsWrite | cmd/gnodev/precompile.go:93-116 | a verify failure implies `SkipFmt` is off, the read and the transform succeeded, and the transformed text was written successfully to the target path first |
| FilePipeline.Step | cmd/gnodev/precompile.go:87-118 | one transition of the per-file state machine; the terminal states Done and Failed do not move |
| FilePipeline.TerminalIsFinal | cmd/gnodev/precompile.go:87-118 | from a terminal state, any number of steps leaves the state unchanged (no retries) |
| FilePipeline.ProcessFileMatchesMachine | cmd/gnodev/precompile.go:82-119 | after four or more steps the state machine is terminal with ProcessFile's outcome, and it ends in Done(verified) with `verified` exactly when `SkipFmt` is off |
| PrecompileApp.VisitStep | cmd/gnodev/precompile.go:52-67 | one WalkDir callback only extends the processed list, and the count grows by at most one per processed file |
| PrecompileApp.Walk | cmd/gnodev/precompile.go:52-71 | a walk only extends the processed list; whether or not it stops, it adds at most one file per visit; while it runs, it adds at most one count per added file; it stops early only at one of its own walk errors, with an error naming the directory argument, whatever path the walk error concerned |
| PrecompileApp.ArgStep | cmd/gnodev/precompile.go:40-72 | one argument leaves a stopped run untouched, only extends the processed list, and never stops with the usage error or the count error |
| PrecompileApp.Fold | cmd/gnodev/precompile.go:37-73 | the loop keeps the invariants of ArgStep over any number of arguments |
| PrecompileApp.App | cmd/gnodev/precompile.go:30-80 | the result is the "invalid args" error exactly when there are no arguments, and then nothing is processed; a count error carries a positive count no larger than the number of files processed |
| PrecompileSpec.FirstFatal | cmd/gnodev/precompile.go:40-73 | the index of the first fatal event: every event before it is non-fatal, and the event at it is fatal |
| PrecompileSpec.ExpectedAppend | cmd/gnodev/precompile.go:40-73 | the reference outcome of `a + b` is that of `a`, carried on with `b` unless `a` already stopped |
| PrecompileSpec.WalkMatchesEvents | cmd/gnodev/precompile.go:52-71 | a walk from any running state reaches the state the reference gives for its events |
| PrecompileSpec.FoldMatchesEvents | cmd/gnodev/precompile.go:37-73 | the loop from any running state reaches the state the reference gives for its events |
| PrecompileSpec.AppMatchesSpec | cmd/gnodev/precompile.go:30-80 | for every input, precompileApp's result and processed files equal the reference definition |
| PrecompileProperties.FoldAppend | cmd/gnodev/precompile.go:40-73 | the loop over `a + b` is the loop over `a` followed by the loop over `b` |
| PrecompileProperties.WalkAppend | cmd/gnodev/precompile.go:52-68 | a walk over `a + b` is the walk over `a` followed by the walk over `b` |
| PrecompileProperties.LaterArgsIgnoredAfterStop | cmd/gnodev/precompile.go:40-73 | once an argument ends the run early, appending further arguments changes neither the result nor the processed files |
| PrecompileProperties.StatErrorAborts | cmd/gnodev/precompile.go:41-44 | a stat error after completed arguments returns that stat error at once, and nothing after it is processed |
| PrecompileProperties.ExplicitFailureAborts | cmd/gnodev/precompile.go:45-50 | a failing explicit file after completed arguments returns an error naming that file, with its stage and cause; it is the last file processed, and counts from earlier directories are discarded |
| PrecompileProperties.ExplicitFileTrusted | cmd/gnodev/precompile.go:45-50 | an explicitly named file is processed whatever isGnoFile says, and the run succeeds exactly when its pipeline succeeds |
| PrecompileProperties.WalkWithoutErrorsRuns | cmd/gnodev/precompile.go:52-68 | a walk without walk errors never ends the run early |
| PrecompileProperties.WalkErrorAborts | cmd/gnodev/precompile.go:52-71 | a walk error reported for any path `q` ends the run with `WalkFailed(root, c)`, naming the directory argument and not `q`, whatever follows it |
| PrecompileProperties.NonGnoEntrySkipped | cmd/gnodev/precompile.go:57-59 | an entry isGnoFile rejects has no effect on the walk |
| PrecompileProperties.WalkCountsFailures | cmd/gnodev/precompile.go:57-66 | a walk without walk errors processes every Gno entry in order, and the count grows by exactly the number of those that fail |
| PrecompileProperties.CompletedIffNoFatal | cmd/gnodev/precompile.go:40-73 | all arguments run to completion exactly when no event is fatal (no stat error, no walk error, no failing explicit file) |
| PrecompileProperties.FinalReport | cmd/gnodev/precompile.go:75-79 | when all arguments complete, the result is the count error carrying N exactly when N > 0 and success otherwise, where N is the number of failing discovered files across all directories |
| PrecompileProperties.AllFilesProcessed | cmd/gnodev/precompile.go:40-73 | when all arguments complete, every explicit file and every discovered Gno file was processed, in argument and walk order |
| PrecompileProperties.SingleDirReport | cmd/gnodev/precompile.go:52-79 | a single directory argument without walk errors reports exactly the number of its failing Gno files |
| PrecompileProperties.ScenarioFilePasses | cmd/gnodev/precompile.go:92-116 | in the worked example (skipped formatting checks), every `.gno` file other than `b.gno` precompiles and its transformed text is written to `<file>.gen.go` |
| PrecompileProperties.ScenarioFileFails | cmd/gnodev/precompile.go:98-101 | in the worked example, `b.gno` fails at the transform stage with the transform's error |
| PrecompileProperties.ScenarioFiles | cmd/gnodev/precompile.go:92-107 | in the worked example, `a.gno` and `sub/d.gno` precompile and have their `.gno.gen.go` files written, and `b.gno` fails |
| PrecompileProperties.ScenarioEvents | cmd/gnodev/precompile.go:52-59 | in the worked example the walk discovers `a.gno`, `b.gno` and `sub/d.gno` and skips the directories and `c.txt` |
| PrecompileProperties.ScenarioCounts | cmd/gnodev/precompile.go:57-66 | in the worked example the three discovered files are processed in walk order and exactly one of them is counted as failing |
| PrecompileProperties.Scenario | cmd/gnodev/precompile.go:30-80 | the worked example processes the three Gno files and reports one error |

## Left out

- Printing: the verbose line (lines 87-89), the per-file diagnostic (line 63) and the usage message (line 33) are side effects on stderr with no bearing on the result.
- The text of error messages: only which error occurs and the path, stage, cause or count it carries are modelled.
- Flag parsing and the `precompileOptions` struct tags (lines 16-28), including the `go-binary` tag used twice. `GoBinary` is kept as a field of `Options` but, as in the source, nothing reads it.
- `os.Stat`, the `filepath.WalkDir` traversal and its order: each argument arrives classified, and a directory arrives with its list of callbacks.
- `isGnoFile` is not part of this model. It is an arbitrary predicate on directory entries, which carry the name, the directory bit and the regular-file bit (the other `fs.FileMode` type bits and `Info()` are not modelled). The worked example takes it to be "a regular file whose name ends in `.gno`".
- `ioutil.ReadFile`, `ioutil.WriteFile` (including the 0o644 permissions), `gno.Precompile` and `gno.PrecompileVerifyFile` are oracles. The model does not relate a write to a later read: files written during a run do not change what later reads or walks see.
- Regenerating the same unchanged file twice gives the same output. This follows from every oracle being a function, so no lemma states it.
