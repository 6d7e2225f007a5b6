/**
  The promises precompileApp makes about its two error regimes, each stated
  for every input.
 */
module PrecompileProperties {
  import opened TargetPaths
  import opened FilePipeline
  import opened PrecompileApp
  import opened PrecompileSpec

  /** The loop over `a + b` is the loop over `a` followed by the loop over `b`. */
  lemma {:induction false} FoldAppend(a: seq<Arg>, b: seq<Arg>, env: Env, st: State)
    ensures Fold(a + b, env, st) == Fold(b, env, Fold(a, env, st))
    decreases |a|
  {
    if |a| == 0 {
      assert a + b == b;
    } else {
      assert (a + b)[0] == a[0];
      assert (a + b)[1..] == a[1..] + b;
      FoldAppend(a[1..], b, env, ArgStep(a[0], env, st));
    }
  }

  /** A walk over `a + b` is the walk over `a` followed by the walk over `b`. */
  lemma {:induction false} WalkAppend(root: Path, a: seq<Visit>, b: seq<Visit>, env: Env, st: State)
    ensures Walk(root, a + b, env, st) == Walk(root, b, env, Walk(root, a, env, st))
    decreases |a|
  {
    if |a| == 0 {
      assert a + b == b;
    } else if st.Running? {
      assert (a + b)[0] == a[0];
      assert (a + b)[1..] == a[1..] + b;
      WalkAppend(root, a[1..], b, env, VisitStep(root, a[0], env, st));
    }
  }

  /** Once an argument returns early, the arguments after it change nothing. */
  lemma LaterArgsIgnoredAfterStop(pre: seq<Arg>, post: seq<Arg>, env: Env)
    requires |pre| > 0
    requires !Completed(pre, env)
    ensures App(pre + post, env) == App(pre, env)
    ensures App(pre, env).result.AppErr?
  {
    FoldAppend(pre, post, env, Running(0, []));
  }

  /** A stat error returns at once, with the stat error, whatever follows it. */
  lemma StatErrorAborts(pre: seq<Arg>, c: Cause, post: seq<Arg>, env: Env)
    requires Completed(pre, env)
    ensures App(pre + [StatError(c)] + post, env) ==
      Run(AppErr(BadPath(c)), Fold(pre, env, Running(0, [])).processed)
  {
    FoldAppend(pre + [StatError(c)], post, env, Running(0, []));
    FoldAppend(pre, [StatError(c)], env, Running(0, []));
  }

  /**
    An explicit file that fails returns at once with an error naming it:
    later arguments are never processed, and failures counted in earlier
    directories are dropped.
   */
  lemma ExplicitFailureAborts(pre: seq<Arg>, p: Path, post: seq<Arg>, env: Env)
    requires Completed(pre, env)
    requires FileFails(p, env)
    ensures var out := ProcessFile(p, env.opts, env.o).outcome;
      App(pre + [File(p)] + post, env) ==
      Run(AppErr(FileFailed(p, out.stage, out.cause)), Fold(pre, env, Running(0, [])).processed + [p])
  {
    FoldAppend(pre + [File(p)], post, env, Running(0, []));
    FoldAppend(pre, [File(p)], env, Running(0, []));
  }

  /** An explicitly named file is run through the pipeline whatever isGnoFile says of it. */
  lemma ExplicitFileTrusted(p: Path, env: Env)
    ensures App([File(p)], env).processed == [p]
    ensures App([File(p)], env).result.AppOk? <==> !FileFails(p, env)
  {
    var args := [File(p)];
    assert args[1..] == [];
    assert Fold(args, env, Running(0, [])) == ArgStep(File(p), env, Running(0, []));
  }

  /** A walk with no walk error never stops early. */
  lemma WalkWithoutErrorsRuns(root: Path, vs: seq<Visit>, env: Env, n: nat, ps: seq<Path>)
    requires forall i :: 0 <= i < |vs| ==> vs[i].Entry?
    ensures Walk(root, vs, env, Running(n, ps)).Running?
  {
  }

  /**
    A walk error at any path `q` under the directory returns at once with an
    error naming the directory argument (not `q`), whatever comes after it.
   */
  lemma WalkErrorAborts(pre: seq<Arg>, root: Path, before: seq<Visit>, q: Path, c: Cause, after: seq<Visit>,
                        post: seq<Arg>, env: Env)
    requires Completed(pre, env)
    requires forall i :: 0 <= i < |before| ==> before[i].Entry?
    ensures App(pre + [Dir(root, before + [WalkError(q, c)] + after)] + post, env).result ==
      AppErr(WalkFailed(root, c))
  {
    var vs := before + [WalkError(q, c)] + after;
    var st0 := Fold(pre, env, Running(0, []));
    FoldAppend(pre + [Dir(root, vs)], post, env, Running(0, []));
    FoldAppend(pre, [Dir(root, vs)], env, Running(0, []));
    WalkAppend(root, before + [WalkError(q, c)], after, env, st0);
    WalkAppend(root, before, [WalkError(q, c)], env, st0);
    WalkWithoutErrorsRuns(root, before, env, st0.errCount, st0.processed);
  }

  /** An entry isGnoFile rejects has no effect on the walk. */
  lemma NonGnoEntrySkipped(root: Path, before: seq<Visit>, p: Path, e: DirEntry, after: seq<Visit>,
                           env: Env, st: State)
    requires !env.isGno(e)
    ensures Walk(root, before + [Entry(p, e)] + after, env, st) == Walk(root, before + after, env, st)
  {
    WalkAppend(root, before + [Entry(p, e)], after, env, st);
    WalkAppend(root, before, [Entry(p, e)], env, st);
    WalkAppend(root, before, after, env, st);
  }

  /**
    A walk without walk errors visits every Gno file, in order, and adds to
    the count exactly one per file that fails.
   */
  lemma {:induction false} WalkCountsFailures(root: Path, vs: seq<Visit>, env: Env, n: nat, ps: seq<Path>)
    requires forall i :: 0 <= i < |vs| ==> vs[i].Entry?
    ensures Walk(root, vs, env, Running(n, ps)) ==
      Running(n + CountFailed(VisitEvents(root, vs, env)),
              ps + PathsOf(VisitEvents(root, vs, env)))
  {
    var es := VisitEvents(root, vs, env);
    WalkMatchesEvents(root, vs, env, n, ps);
    EntriesAreDiscovered(root, vs, env);
    assert forall i :: 0 <= i < |es| ==> !Fatal(es[i]);
    assert FirstFatal(es) == |es|;
  }

  /** A walk without walk errors yields only discovered files. */
  lemma {:induction false} EntriesAreDiscovered(root: Path, vs: seq<Visit>, env: Env)
    requires forall i :: 0 <= i < |vs| ==> vs[i].Entry?
    ensures forall i :: 0 <= i < |VisitEvents(root, vs, env)| ==> VisitEvents(root, vs, env)[i].Discovered?
    decreases |vs|
  {
    if |vs| > 0 {
      EntriesAreDiscovered(root, vs[1..], env);
      var head: seq<Event> := VisitEvent(root, vs[0], env);
      var tail: seq<Event> := VisitEvents(root, vs[1..], env);
      forall i | 0 <= i < |head + tail| ensures (head + tail)[i].Discovered? {
        if i < |head| { assert (head + tail)[i] == head[i]; } else { assert (head + tail)[i] == tail[i - |head|]; }
      }
    }
  }

  /** Every argument runs to completion exactly when no event is fatal. */
  lemma CompletedIffNoFatal(args: seq<Arg>, env: Env)
    ensures Completed(args, env) <==>
      forall i :: 0 <= i < |Events(args, env)| ==> !Fatal(Events(args, env)[i])
  {
    FoldMatchesEvents(args, env, 0, []);
  }

  /**
    When every argument completes, the invocation fails exactly when some
    discovered file failed, with the number of such files.
   */
  lemma FinalReport(args: seq<Arg>, env: Env)
    requires |args| > 0
    requires Completed(args, env)
    ensures var n := CountFailed(Events(args, env));
      App(args, env).result == (if n > 0 then AppErr(ErrorCount(n)) else AppOk)
  {
    FoldMatchesEvents(args, env, 0, []);
  }

  /** When every argument completes, every explicit and every discovered file was processed, in order. */
  lemma AllFilesProcessed(args: seq<Arg>, env: Env)
    requires |args| > 0
    requires Completed(args, env)
    ensures App(args, env).processed == PathsOf(Events(args, env))
  {
    FoldMatchesEvents(args, env, 0, []);
  }

  /*
    A worked invocation: directory `pkg` holds `a.gno` (precompiles),
    `b.gno` (does not), `c.txt`, and `sub/d.gno` (precompiles); formatting
    checks are skipped. isGnoFile is taken here as "a regular file whose
    name ends in .gno".
   */

  function ScenarioEnv(): Env {
    Env(DefaultOptions.(skipFmt := true),
        Oracles(p => Value(p),
                s => if s == "pkg/b.gno" then Error("syntax error") else Value(s),
                (t, x) => Success,
                (t, g) => Failure("not checked")),
        (e: DirEntry) => e.isRegular && EndsWith(e.name, GnoExt))
  }

  function ScenarioVisits(): seq<Visit> {
    [Entry("pkg", DirEntry("pkg", true, false)),
     Entry("pkg/a.gno", DirEntry("a.gno", false, true)),
     Entry("pkg/b.gno", DirEntry("b.gno", false, true)),
     Entry("pkg/c.txt", DirEntry("c.txt", false, true)),
     Entry("pkg/sub", DirEntry("sub", true, false)),
     Entry("pkg/sub/d.gno", DirEntry("d.gno", false, true))]
  }

  /** In the worked example every Gno file except `b.gno` precompiles, and its generated file is written. */
  lemma ScenarioFilePasses(p: Path)
    requires EndsWith(p, GnoExt) && p != "pkg/b.gno"
    ensures !FileFails(p, ScenarioEnv())
    ensures WriteCall(p + GenExt, p) in ProcessFile(p, ScenarioEnv().opts, ScenarioEnv().o).calls
  {
    var r := ProcessFile(p, ScenarioEnv().opts, ScenarioEnv().o);
    assert |r.calls| == 3;
    assert r.calls[2] == WriteCall(TargetPath(p), p);
  }

  /** In the worked example `b.gno` fails at the transform stage. */
  lemma ScenarioFileFails()
    ensures ProcessFile("pkg/b.gno", ScenarioEnv().opts, ScenarioEnv().o).outcome == FileErr(TransformStage, "syntax error")
  {
  }

  lemma ScenarioFiles()
    ensures !FileFails("pkg/a.gno", ScenarioEnv())
    ensures FileFails("pkg/b.gno", ScenarioEnv())
    ensures !FileFails("pkg/sub/d.gno", ScenarioEnv())
    ensures WriteCall("pkg/a.gno.gen.go", "pkg/a.gno") in ProcessFile("pkg/a.gno", ScenarioEnv().opts, ScenarioEnv().o).calls
    ensures WriteCall("pkg/sub/d.gno.gen.go", "pkg/sub/d.gno") in ProcessFile("pkg/sub/d.gno", ScenarioEnv().opts, ScenarioEnv().o).calls
  {
    ScenarioNames();
    ScenarioFilePasses("pkg/a.gno");
    ScenarioFilePasses("pkg/sub/d.gno");
    ScenarioFileFails();
  }

  /** The worked example's file names, spelled out. */
  lemma ScenarioNames()
    ensures EndsWith("pkg/a.gno", GnoExt) && EndsWith("pkg/sub/d.gno", GnoExt)
    ensures "pkg/a.gno" + GenExt == "pkg/a.gno.gen.go"
    ensures "pkg/sub/d.gno" + GenExt == "pkg/sub/d.gno.gen.go"
  {
    assert "pkg/a.gno"[|"pkg/a.gno"| - |GnoExt|..] == GnoExt;
    assert "pkg/sub/d.gno"[|"pkg/sub/d.gno"| - |GnoExt|..] == GnoExt;
  }

  /** The events the walk of `pkg` yields. */
  function ScenarioFound(): seq<Event> {
    var env := ScenarioEnv();
    [Discovered("pkg/a.gno", OutcomeOf("pkg/a.gno", env)),
     Discovered("pkg/b.gno", OutcomeOf("pkg/b.gno", env)),
     Discovered("pkg/sub/d.gno", OutcomeOf("pkg/sub/d.gno", env))]
  }

  /** isGnoFile keeps the three `.gno` files. */
  lemma ScenarioKeeps()
    ensures var isGno := ScenarioEnv().isGno; var vs := ScenarioVisits();
      isGno(vs[1].entry) && isGno(vs[2].entry) && isGno(vs[5].entry)
  {
    assert EndsWith("a.gno", GnoExt);
    assert EndsWith("b.gno", GnoExt);
    assert EndsWith("d.gno", GnoExt);
  }

  /** isGnoFile rejects the directories and `c.txt`. */
  lemma ScenarioRejects()
    ensures var isGno := ScenarioEnv().isGno; var vs := ScenarioVisits();
      !isGno(vs[0].entry) && !isGno(vs[3].entry) && !isGno(vs[4].entry)
  {
    assert "c.txt"[|"c.txt"| - |GnoExt|..] != GnoExt;
  }

  lemma ScenarioEvents()
    ensures VisitEvents("pkg", ScenarioVisits(), ScenarioEnv()) == ScenarioFound()
  {
    var env := ScenarioEnv();
    var vs := ScenarioVisits();
    var es := ScenarioFound();
    ScenarioKeeps();
    ScenarioEventsTail();
    assert VisitEvents("pkg", vs[2..], env) == es[1..] by { assert vs[2..][1..] == vs[3..]; }
    assert VisitEvents("pkg", vs[1..], env) == es by { assert vs[1..][1..] == vs[2..]; }
  }

  /** The last three visits yield only `sub/d.gno`. */
  lemma ScenarioEventsTail()
    ensures VisitEvents("pkg", ScenarioVisits()[3..], ScenarioEnv()) == ScenarioFound()[2..]
  {
    var env := ScenarioEnv();
    var vs := ScenarioVisits();
    var es := ScenarioFound();
    ScenarioKeeps();
    ScenarioRejects();
    assert VisitEvents("pkg", vs[6..], env) == [];
    assert VisitEvents("pkg", vs[5..], env) == es[2..] by { assert vs[5..][1..] == vs[6..]; }
    assert VisitEvents("pkg", vs[4..], env) == es[2..] by { assert vs[4..][1..] == vs[5..]; }
  }

  lemma ScenarioCounts()
    ensures PathsOf(ScenarioFound()) == ["pkg/a.gno", "pkg/b.gno", "pkg/sub/d.gno"]
    ensures CountFailed(ScenarioFound()) == 1
  {
    var es := ScenarioFound();
    ScenarioFiles();
    assert es[1..][1..][1..] == [];
  }

  /**
    The walk runs the pipeline on the three Gno files only, writes the
    generated files of the two good ones, and reports one error.
   */
  lemma Scenario()
    ensures App([Dir("pkg", ScenarioVisits())], ScenarioEnv()) ==
      Run(AppErr(ErrorCount(1)), ["pkg/a.gno", "pkg/b.gno", "pkg/sub/d.gno"])
  {
    ScenarioEvents();
    ScenarioCounts();
    ScenarioHasNoWalkError();
    SingleDirReport("pkg", ScenarioVisits(), ScenarioEnv());
  }

  lemma ScenarioHasNoWalkError()
    ensures forall i :: 0 <= i < |ScenarioVisits()| ==> ScenarioVisits()[i].Entry?
  {
  }

  /** The invocation on one directory argument without walk errors. */
  lemma SingleDirReport(root: Path, vs: seq<Visit>, env: Env)
    requires forall i :: 0 <= i < |vs| ==> vs[i].Entry?
    ensures var es := VisitEvents(root, vs, env);
      var n := CountFailed(es);
      App([Dir(root, vs)], env) == Run(if n > 0 then AppErr(ErrorCount(n)) else AppOk, PathsOf(es))
  {
    WalkCountsFailures(root, vs, env, 0, []);
    var args := [Dir(root, vs)];
    assert args[1..] == [];
    assert Fold(args, env, Running(0, [])) == Walk(root, vs, env, Running(0, []));
  }
}
