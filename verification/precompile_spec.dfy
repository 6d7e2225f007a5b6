/**
  A reference description of precompileApp that does not follow the loop.

  The arguments are flattened into one sequence of events, each tagged with
  the regime it belongs to: an explicitly named file, a file discovered by a
  walk, a stat error or a walk error. A file event also carries the outcome
  precompileFile gives that file. The invocation's outcome is then read off
  that sequence: the first fatal event (a stat error, a walk error, or an
  explicit file that fails) decides the error; if there is none, the number
  of failing discovered files does.
 */
module PrecompileSpec {
  import opened TargetPaths
  import opened FilePipeline
  import opened PrecompileApp

  datatype Event =
    | StatFail(cause: Cause)
    | Explicit(path: Path, outcome: FileOutcome)
    | Discovered(path: Path, outcome: FileOutcome)
    | WalkFail(root: Path, cause: Cause)

  /** The outcome precompileFile gives `p`. */
  function OutcomeOf(p: Path, env: Env): FileOutcome {
    ProcessFile(p, env.opts, env.o).outcome
  }

  /** The event a walk callback contributes: none for an entry isGnoFile rejects. */
  function VisitEvent(root: Path, v: Visit, env: Env): seq<Event> {
    match v
    case WalkError(_, c) => [WalkFail(root, c)]
    case Entry(p, e) => if env.isGno(e) then [Discovered(p, OutcomeOf(p, env))] else []
  }

  function VisitEvents(root: Path, vs: seq<Visit>, env: Env): seq<Event>
    decreases |vs|
  {
    if |vs| == 0 then [] else VisitEvent(root, vs[0], env) + VisitEvents(root, vs[1..], env)
  }

  function ArgEvents(a: Arg, env: Env): seq<Event> {
    match a
    case StatError(c) => [StatFail(c)]
    case File(p) => [Explicit(p, OutcomeOf(p, env))]
    case Dir(root, vs) => VisitEvents(root, vs, env)
  }

  function Events(args: seq<Arg>, env: Env): seq<Event>
    decreases |args|
  {
    if |args| == 0 then [] else ArgEvents(args[0], env) + Events(args[1..], env)
  }

  /** Events that end the invocation at once. A discovered file never does. */
  predicate Fatal(e: Event) {
    match e
    case StatFail(_) => true
    case WalkFail(_, _) => true
    case Explicit(_, out) => out.FileErr?
    case Discovered(_, _) => false
  }

  /** The index of the first fatal event, or |es| when there is none. */
  function FirstFatal(es: seq<Event>): (k: nat)
    ensures k <= |es|
    ensures forall i {:trigger Fatal(es[i])} :: 0 <= i < k ==> !Fatal(es[i])
    ensures k < |es| ==> Fatal(es[k])
    decreases |es|
  {
    if |es| == 0 then 0
    else if Fatal(es[0]) then 0
    else 1 + FirstFatal(es[1..])
  }

  /** The files the pipeline is run on: the explicit and the discovered ones. */
  function PathsOf(es: seq<Event>): seq<Path>
    decreases |es|
  {
    if |es| == 0 then []
    else (if es[0].Explicit? || es[0].Discovered? then [es[0].path] else []) + PathsOf(es[1..])
  }

  /** How many discovered files fail. */
  function CountFailed(es: seq<Event>): nat
    decreases |es|
  {
    if |es| == 0 then 0
    else (if es[0].Discovered? && es[0].outcome.FileErr? then 1 else 0) + CountFailed(es[1..])
  }

  /** The error a fatal event returns. */
  function ErrorOf(e: Event): AppError
    requires Fatal(e)
  {
    match e
    case StatFail(c) => BadPath(c)
    case WalkFail(root, c) => WalkFailed(root, c)
    case Explicit(p, out) => FileFailed(p, out.stage, out.cause)
  }

  /** The state reached from Running(n, ps) after the events `es`. */
  function Expected(es: seq<Event>, n: nat, ps: seq<Path>): State {
    var k := FirstFatal(es);
    if k < |es| then Stopped(ErrorOf(es[k]), ps + PathsOf(es[..k + 1]))
    else Running(n + CountFailed(es), ps + PathsOf(es))
  }

  /** The reference outcome of an invocation. */
  function Spec(args: seq<Arg>, env: Env): Run {
    if |args| == 0 then Run(AppErr(InvalidArgs), [])
    else
      match Expected(Events(args, env), 0, [])
      case Stopped(e, ps) => Run(AppErr(e), ps)
      case Running(n, ps) => Run(if n > 0 then AppErr(ErrorCount(n)) else AppOk, ps)
  }

  /*
    Expected composes over concatenation.
   */

  lemma {:induction false} PathsOfAppend(a: seq<Event>, b: seq<Event>)
    ensures PathsOf(a + b) == PathsOf(a) + PathsOf(b)
    decreases |a|
  {
    if |a| > 0 {
      assert (a + b)[1..] == a[1..] + b;
      PathsOfAppend(a[1..], b);
    } else {
      assert a + b == b;
    }
  }

  lemma {:induction false} CountFailedAppend(a: seq<Event>, b: seq<Event>)
    ensures CountFailed(a + b) == CountFailed(a) + CountFailed(b)
    decreases |a|
  {
    if |a| > 0 {
      assert (a + b)[1..] == a[1..] + b;
      CountFailedAppend(a[1..], b);
    } else {
      assert a + b == b;
    }
  }

  lemma {:induction false} FirstFatalAppend(a: seq<Event>, b: seq<Event>)
    ensures FirstFatal(a + b) ==
      (if FirstFatal(a) < |a| then FirstFatal(a) else |a| + FirstFatal(b))
    decreases |a|
  {
    if |a| == 0 {
      assert a + b == b;
    } else {
      assert (a + b)[0] == a[0];
      assert (a + b)[1..] == a[1..] + b;
      FirstFatalAppend(a[1..], b);
    }
  }

  /** Carry on with `es` from a state, unless it has already stopped. */
  function Continue(st: State, es: seq<Event>): State {
    if st.Stopped? then st else Expected(es, st.errCount, st.processed)
  }

  lemma ExpectedAppend(a: seq<Event>, b: seq<Event>, n: nat, ps: seq<Path>)
    ensures Expected(a + b, n, ps) == Continue(Expected(a, n, ps), b)
  {
    FirstFatalAppend(a, b);
    if FirstFatal(a) < |a| {
      ExpectedAppendStopped(a, b, n, ps);
    } else {
      ExpectedAppendRunning(a, b, n, ps);
    }
  }

  lemma ExpectedAppendStopped(a: seq<Event>, b: seq<Event>, n: nat, ps: seq<Path>)
    requires FirstFatal(a) < |a|
    requires FirstFatal(a + b) == FirstFatal(a)
    ensures Expected(a + b, n, ps) == Expected(a, n, ps)
  {
    var ka := FirstFatal(a);
    assert (a + b)[ka] == a[ka];
    assert (a + b)[..ka + 1] == a[..ka + 1];
  }

  lemma ExpectedAppendRunning(a: seq<Event>, b: seq<Event>, n: nat, ps: seq<Path>)
    requires FirstFatal(a) == |a|
    requires FirstFatal(a + b) == |a| + FirstFatal(b)
    ensures Expected(a, n, ps) == Running(n + CountFailed(a), ps + PathsOf(a))
    ensures Expected(a + b, n, ps) == Expected(b, n + CountFailed(a), ps + PathsOf(a))
  {
    if FirstFatal(b) < |b| {
      ExpectedAppendRunningThenStopped(a, b, n, ps);
    } else {
      ExpectedAppendRunningThenRunning(a, b, n, ps);
    }
  }

  lemma ExpectedAppendRunningThenRunning(a: seq<Event>, b: seq<Event>, n: nat, ps: seq<Path>)
    requires FirstFatal(b) == |b|
    requires FirstFatal(a + b) == |a| + |b|
    ensures Expected(a + b, n, ps) == Expected(b, n + CountFailed(a), ps + PathsOf(a))
  {
    ExpectedRuns(a + b, n, ps);
    ExpectedRuns(b, n + CountFailed(a), ps + PathsOf(a));
    PathsOfAppend(a, b);
    CountFailedAppend(a, b);
    ConcatAssoc(ps, PathsOf(a), PathsOf(b));
  }

  /** Expected, when no event is fatal. */
  lemma ExpectedRuns(es: seq<Event>, n: nat, ps: seq<Path>)
    requires FirstFatal(es) == |es|
    ensures Expected(es, n, ps) == Running(n + CountFailed(es), ps + PathsOf(es))
  {
  }

  lemma ExpectedAppendRunningThenStopped(a: seq<Event>, b: seq<Event>, n: nat, ps: seq<Path>)
    requires FirstFatal(b) < |b|
    requires FirstFatal(a + b) == |a| + FirstFatal(b)
    ensures Expected(a + b, n, ps) == Expected(b, n + CountFailed(a), ps + PathsOf(a))
  {
    ExpectedAppendStopsInSecond(a, b, n, ps);
    ExpectedStopsAt(b, n + CountFailed(a), ps + PathsOf(a), FirstFatal(b));
  }

  /** When `a` has no fatal event and `b` has one, `a + b` stops at `b`'s, having processed all of `a`'s files. */
  lemma ExpectedAppendStopsInSecond(a: seq<Event>, b: seq<Event>, n: nat, ps: seq<Path>)
    requires FirstFatal(b) < |b|
    requires FirstFatal(a + b) == |a| + FirstFatal(b)
    ensures Expected(a + b, n, ps) ==
      Stopped(ErrorOf(b[FirstFatal(b)]), (ps + PathsOf(a)) + PathsOf(b[..FirstFatal(b) + 1]))
  {
    var kb := FirstFatal(b);
    ExpectedStopsAt(a + b, n, ps, |a| + kb);
    assert (a + b)[|a| + kb] == b[kb];
    PathsOfPrefixAppend(a, b, kb);
    ConcatAssoc(ps, PathsOf(a), PathsOf(b[..kb + 1]));
  }

  /** Expected, when the first fatal event is at `k`. */
  lemma ExpectedStopsAt(es: seq<Event>, n: nat, ps: seq<Path>, k: nat)
    requires k < |es| && FirstFatal(es) == k
    ensures Expected(es, n, ps) == Stopped(ErrorOf(es[k]), ps + PathsOf(es[..k + 1]))
  {
  }

  lemma ConcatAssoc(x: seq<Path>, y: seq<Path>, z: seq<Path>)
    ensures x + (y + z) == (x + y) + z
  {
  }

  /** The files up to an event of `b`, counted from the start of `a + b`. */
  lemma PathsOfPrefixAppend(a: seq<Event>, b: seq<Event>, kb: nat)
    requires kb < |b|
    ensures PathsOf((a + b)[..|a| + kb + 1]) == PathsOf(a) + PathsOf(b[..kb + 1])
  {
    PrefixOfAppend(a, b, |a| + kb + 1);
    PathsOfSplit((a + b)[..|a| + kb + 1], a, b[..kb + 1]);
  }

  lemma PathsOfSplit(x: seq<Event>, a: seq<Event>, p: seq<Event>)
    requires x == a + p
    ensures PathsOf(x) == PathsOf(a) + PathsOf(p)
  {
    PathsOfAppend(a, p);
  }

  lemma PrefixOfAppend(a: seq<Event>, b: seq<Event>, j: nat)
    requires |a| <= j <= |a| + |b|
    ensures (a + b)[..j] == a + b[..j - |a|]
  {
  }

  /*
    The loop computes the reference outcome.
   */

  /** Expected on a single event. */
  lemma ExpectedSingle(e: Event, n: nat, ps: seq<Path>)
    ensures Fatal(e) ==> Expected([e], n, ps) == Stopped(ErrorOf(e), ps + PathsOf([e]))
    ensures !Fatal(e) ==> Expected([e], n, ps) == Running(n + CountFailed([e]), ps + PathsOf([e]))
  {
    assert [e][..1] == [e];
  }

  lemma VisitStepMatchesEvents(root: Path, v: Visit, env: Env, n: nat, ps: seq<Path>)
    ensures VisitStep(root, v, env, Running(n, ps)) == Expected(VisitEvent(root, v, env), n, ps)
  {
    match v
    case WalkError(_, c) =>
      ExpectedSingle(WalkFail(root, c), n, ps);
    case Entry(p, e) =>
      if env.isGno(e) {
        ExpectedSingle(Discovered(p, OutcomeOf(p, env)), n, ps);
      } else {
        assert Expected([], n, ps) == Running(n, ps);
      }
  }

  lemma {:induction false} WalkMatchesEvents(root: Path, vs: seq<Visit>, env: Env, n: nat, ps: seq<Path>)
    ensures Walk(root, vs, env, Running(n, ps)) == Expected(VisitEvents(root, vs, env), n, ps)
    decreases |vs|
  {
    if |vs| == 0 {
      assert Expected([], n, ps) == Running(n, ps);
    } else {
      var head := VisitEvent(root, vs[0], env);
      var tail := VisitEvents(root, vs[1..], env);
      var st := VisitStep(root, vs[0], env, Running(n, ps));
      VisitStepMatchesEvents(root, vs[0], env, n, ps);
      ExpectedAppend(head, tail, n, ps);
      if st.Running? {
        WalkMatchesEvents(root, vs[1..], env, st.errCount, st.processed);
      }
    }
  }

  lemma ArgStepMatchesEvents(a: Arg, env: Env, n: nat, ps: seq<Path>)
    ensures ArgStep(a, env, Running(n, ps)) == Expected(ArgEvents(a, env), n, ps)
  {
    match a
    case StatError(c) =>
      ExpectedSingle(StatFail(c), n, ps);
    case File(p) =>
      ExpectedSingle(Explicit(p, OutcomeOf(p, env)), n, ps);
    case Dir(root, vs) =>
      WalkMatchesEvents(root, vs, env, n, ps);
  }

  lemma {:induction false} FoldMatchesEvents(args: seq<Arg>, env: Env, n: nat, ps: seq<Path>)
    ensures Fold(args, env, Running(n, ps)) == Expected(Events(args, env), n, ps)
    decreases |args|
  {
    if |args| == 0 {
      assert Expected([], n, ps) == Running(n, ps);
    } else {
      var head := ArgEvents(args[0], env);
      var tail := Events(args[1..], env);
      var st := ArgStep(args[0], env, Running(n, ps));
      ArgStepMatchesEvents(args[0], env, n, ps);
      ExpectedAppend(head, tail, n, ps);
      if st.Running? {
        FoldMatchesEvents(args[1..], env, st.errCount, st.processed);
      }
    }
  }

  /** precompileApp computes the reference outcome, for every input. */
  lemma AppMatchesSpec(args: seq<Arg>, env: Env)
    ensures App(args, env) == Spec(args, env)
  {
    if |args| > 0 {
      FoldMatchesEvents(args, env, 0, []);
    }
  }
}
