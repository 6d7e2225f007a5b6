/**
  precompileApp: the left fold over the command-line arguments.

  Each argument arrives already classified by `os.Stat`: a stat error, a
  plain file, or a directory together with the callbacks `filepath.WalkDir`
  makes for it (an entry, or a walk error). Two error regimes share the loop:
  a failing explicit file aborts the whole invocation at once, while a
  failing file found by walking a directory is counted and the walk goes on.
  A stat error or a walk error is fatal at once. At the end a positive count
  becomes an error carrying the count.
 */
module PrecompileApp {
  import opened TargetPaths
  import opened FilePipeline

  /** What `fs.DirEntry` exposes to `isGnoFile`: the name and the file type (directory, regular file, or other). */
  datatype DirEntry = DirEntry(name: string, isDir: bool, isRegular: bool)

  /** One callback of `filepath.WalkDir`: an entry, or the error reported for the path `path`. */
  datatype Visit = Entry(path: Path, entry: DirEntry) | WalkError(path: Path, cause: Cause)

  /** An argument after `os.Stat`. */
  datatype Arg = StatError(cause: Cause) | File(path: Path) | Dir(root: Path, visits: seq<Visit>)

  /** Everything the invocation consults but does not compute. */
  datatype Env = Env(opts: Options, o: Oracles, isGno: DirEntry -> bool)

  datatype AppError =
    | InvalidArgs                                   // no arguments
    | BadPath(cause: Cause)                         // "invalid file or package path"
    | FileFailed(path: Path, stage: Stage, cause: Cause) // "<file>: precompile: ..."
    | WalkFailed(root: Path, cause: Cause)          // "<root>: walk dir: ..."
    | ErrorCount(n: nat)                            // "<n> precompile errors"

  datatype AppResult = AppOk | AppErr(err: AppError)

  /** The invocation's result and the files precompileFile was run on, in order. */
  datatype Run = Run(result: AppResult, processed: seq<Path>)

  /** The fold's accumulator: still going with `errCount`, or returned early. */
  datatype State = Running(errCount: nat, processed: seq<Path>) | Stopped(err: AppError, processed: seq<Path>)

  /** `r` is a later state of the same fold as `st`. */
  predicate Extends(st: State, r: State) {
    && st.processed <= r.processed
    && (r.Running? ==> st.Running? && st.errCount <= r.errCount
                        && r.errCount - st.errCount <= |r.processed| - |st.processed|)
  }

  /** precompileFile returns an error for `p`. */
  predicate FileFails(p: Path, env: Env) {
    ProcessFile(p, env.opts, env.o).outcome.FileErr?
  }

  /** The WalkDir callback for one visit. */
  function VisitStep(root: Path, v: Visit, env: Env, st: State): (r: State)
    requires st.Running?
    ensures Extends(st, r)
  {
    match v
    case WalkError(_, c) => Stopped(WalkFailed(root, c), st.processed)
    case Entry(p, e) =>
      if !env.isGno(e) then st
      else if FileFails(p, env) then Running(st.errCount + 1, st.processed + [p])
      else Running(st.errCount, st.processed + [p])
  }

  /** filepath.WalkDir over a directory argument. */
  function Walk(root: Path, visits: seq<Visit>, env: Env, st: State): (r: State)
    ensures st.Stopped? ==> r == st
    ensures Extends(st, r)
    ensures |r.processed| - |st.processed| <= |visits|
    // a walk stops early only at one of its own walk errors, naming the root whatever path failed
    ensures st.Running? && r.Stopped? ==>
      r.err.WalkFailed? && r.err.root == root && exists q :: WalkError(q, r.err.cause) in visits
    decreases |visits|
  {
    if |visits| == 0 || st.Stopped? then st
    else
      var r := Walk(root, visits[1..], env, VisitStep(root, visits[0], env, st));
      assert forall v :: v in visits[1..] ==> v in visits;
      r
  }

  /** One iteration of the loop over the arguments. */
  function ArgStep(a: Arg, env: Env, st: State): (r: State)
    ensures st.Stopped? ==> r == st
    ensures Extends(st, r)
    ensures st.Running? && r.Stopped? ==> !r.err.InvalidArgs? && !r.err.ErrorCount?
  {
    if st.Stopped? then st
    else
      match a
      case StatError(c) => Stopped(BadPath(c), st.processed)
      case File(p) =>
        var out := ProcessFile(p, env.opts, env.o).outcome;
        if out.FileErr? then Stopped(FileFailed(p, out.stage, out.cause), st.processed + [p])
        else Running(st.errCount, st.processed + [p])
      case Dir(root, visits) => Walk(root, visits, env, st)
  }

  /** The loop over the arguments. */
  function Fold(args: seq<Arg>, env: Env, st: State): (r: State)
    ensures st.Stopped? ==> r == st
    ensures Extends(st, r)
    ensures st.Running? && r.Stopped? ==> !r.err.InvalidArgs? && !r.err.ErrorCount?
    decreases |args|
  {
    if |args| == 0 then st
    else Fold(args[1..], env, ArgStep(args[0], env, st))
  }

  /** precompileApp(cmd, args, opts). */
  function App(args: seq<Arg>, env: Env): (r: Run)
    ensures r.result == AppErr(InvalidArgs) <==> |args| == 0
    ensures |args| == 0 ==> r.processed == []
    ensures r.result.AppErr? && r.result.err.ErrorCount? ==> 0 < r.result.err.n <= |r.processed|
  {
    if |args| < 1 then Run(AppErr(InvalidArgs), [])
    else
      match Fold(args, env, Running(0, []))
      case Stopped(e, ps) => Run(AppErr(e), ps)
      case Running(n, ps) => Run(if n > 0 then AppErr(ErrorCount(n)) else AppOk, ps)
  }

  /** The arguments `args` all ran to completion, none returning early. */
  predicate Completed(args: seq<Arg>, env: Env) {
    Fold(args, env, Running(0, [])).Running?
  }
}
