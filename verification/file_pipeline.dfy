/**
  precompileFile: read a Gno file, precompile it, write the generated Go
  file, then (unless formatting checks are skipped) run gofmt on it. The
  first stage that fails decides the outcome and no later stage runs.

  The file system, `gno.Precompile` and `gno.PrecompileVerifyFile` are
  oracles: the model records which of them were called, with which
  arguments, in which order.
 */
module FilePipeline {
  import opened TargetPaths

  /** Text of an underlying error; the wrapping messages are not modelled. */
  type Cause = string

  /** precompileOptions. */
  datatype Options = Options(verbose: bool, skipFmt: bool, goBinary: string, gofmtBinary: string)

  const DefaultOptions: Options := Options(false, false, "go", "gofmt")

  /** A value or the error an oracle returned instead. */
  datatype Result<T> = Value(value: T) | Error(cause: Cause)

  /** An oracle that returns only an error or nil. */
  datatype Status = Success | Failure(cause: Cause)

  datatype Oracles = Oracles(
    read: Path -> Result<string>,        // ioutil.ReadFile
    precompile: string -> Result<string>, // gno.Precompile
    write: (Path, string) -> Status,      // ioutil.WriteFile
    verify: (Path, string) -> Status      // gno.PrecompileVerifyFile(target, gofmt)
  )

  datatype Stage = ReadStage | TransformStage | WriteStage | VerifyStage

  /** The order the stages run in. */
  const StageOrder: seq<Stage> := [ReadStage, TransformStage, WriteStage, VerifyStage]

  /** One call into an oracle. */
  datatype Call =
    | ReadCall(src: Path)
    | PrecompileCall(source: string)
    | WriteCall(target: Path, text: string)
    | VerifyCall(target: Path, gofmt: string)

  datatype FileOutcome = FileOk | FileErr(stage: Stage, cause: Cause)

  /** The outcome of one file together with the oracle calls made for it. */
  datatype FileRun = FileRun(outcome: FileOutcome, calls: seq<Call>)

  function StageOf(c: Call): Stage {
    match c
    case ReadCall(_) => ReadStage
    case PrecompileCall(_) => TransformStage
    case WriteCall(_, _) => WriteStage
    case VerifyCall(_, _) => VerifyStage
  }

  /** The error, if any, the oracle answers to a call. */
  function Answer(c: Call, o: Oracles): Status {
    match c
    case ReadCall(p) => (match o.read(p) case Value(_) => Success case Error(e) => Failure(e))
    case PrecompileCall(s) => (match o.precompile(s) case Value(_) => Success case Error(e) => Failure(e))
    case WriteCall(t, x) => o.write(t, x)
    case VerifyCall(t, g) => o.verify(t, g)
  }

  predicate Succeeds(c: Call, o: Oracles) {
    Answer(c, o).Success?
  }

  /** precompileFile(srcPath, opts). */
  function ProcessFile(src: Path, opts: Options, o: Oracles): (r: FileRun)
    // the stages run in order, read first, and at most one of each
    ensures 1 <= |r.calls| <= |StageOrder|
    ensures forall i :: 0 <= i < |r.calls| ==> StageOf(r.calls[i]) == StageOrder[i]
    ensures r.calls[0] == ReadCall(src)
    // the transform gets the contents read, and the write gets the transformed text
    ensures |r.calls| >= 2 ==> o.read(src).Value? && r.calls[1] == PrecompileCall(o.read(src).value)
    ensures |r.calls| >= 3 ==>
      o.precompile(o.read(src).value).Value? &&
      r.calls[2] == WriteCall(TargetPath(src), o.precompile(o.read(src).value).value)
    // every stage but the last one run succeeded
    ensures forall i :: 0 <= i < |r.calls| - 1 ==> Succeeds(r.calls[i], o)
    // the first failing stage is the last one run, and it decides the outcome
    ensures r.outcome.FileErr? <==> !Succeeds(r.calls[|r.calls| - 1], o)
    ensures r.outcome.FileErr? ==>
      r.outcome.stage == StageOf(r.calls[|r.calls| - 1]) &&
      Answer(r.calls[|r.calls| - 1], o) == Failure(r.outcome.cause)
    // success means every required stage ran
    ensures r.outcome.FileOk? <==> |r.calls| == (if opts.skipFmt then 3 else 4) && Succeeds(r.calls[|r.calls| - 1], o)
    // the write goes to the target path, and verify checks that same file with the configured gofmt
    ensures |r.calls| >= 3 ==> r.calls[2].WriteCall? && r.calls[2].target == TargetPath(src)
    ensures |r.calls| == 4 ==> r.calls[3] == VerifyCall(TargetPath(src), opts.gofmtBinary)
    // verify runs exactly when it is not skipped and the target was written
    ensures |r.calls| == 4 <==> !opts.skipFmt && |r.calls| >= 3 && Succeeds(r.calls[2], o)
  {
    match o.read(src)
    case Error(e) => FileRun(FileErr(ReadStage, e), [ReadCall(src)])
    case Value(source) =>
      match o.precompile(source)
      case Error(e) => FileRun(FileErr(TransformStage, e), [ReadCall(src), PrecompileCall(source)])
      case Value(text) =>
        var target := TargetPath(src);
        var written := [ReadCall(src), PrecompileCall(source), WriteCall(target, text)];
        match o.write(target, text)
        case Failure(e) => FileRun(FileErr(WriteStage, e), written)
        case Success =>
          if opts.skipFmt then FileRun(FileOk, written)
          else
            var check := written + [VerifyCall(target, opts.gofmtBinary)];
            match o.verify(target, opts.gofmtBinary)
            case Failure(e) => FileRun(FileErr(VerifyStage, e), check)
            case Success => FileRun(FileOk, check)
  }

  /** With formatting checks skipped, verify never runs and never decides the outcome. */
  lemma SkipFmtNeverVerifies(src: Path, opts: Options, o: Oracles)
    requires opts.skipFmt
    ensures forall c :: c in ProcessFile(src, opts, o).calls ==> !c.VerifyCall?
    ensures !(ProcessFile(src, opts, o).outcome.FileErr? && ProcessFile(src, opts, o).outcome.stage == VerifyStage)
  {
    var r := ProcessFile(src, opts, o);
    forall c | c in r.calls ensures !c.VerifyCall? {
      var i :| 0 <= i < |r.calls| && r.calls[i] == c;
      assert StageOf(c) == StageOrder[i];
    }
  }

  /** A verify failure happens only after the generated file was successfully written. */
  lemma VerifyFailureFollowsWrite(src: Path, opts: Options, o: Oracles)
    requires ProcessFile(src, opts, o).outcome.FileErr?
    requires ProcessFile(src, opts, o).outcome.stage == VerifyStage
    ensures !opts.skipFmt
    ensures o.read(src).Value? && o.precompile(o.read(src).value).Value?
    ensures var text := o.precompile(o.read(src).value).value;
      WriteCall(TargetPath(src), text) in ProcessFile(src, opts, o).calls
      && o.write(TargetPath(src), text) == Success
  {
    var r := ProcessFile(src, opts, o);
    assert |r.calls| == 4;
    assert Succeeds(r.calls[2], o);
  }

  /*
    The same pipeline as a state machine, Unstarted -> Loaded -> Transformed
    -> Written -> Done, with a move to Failed(stage) from any state; Done and
    Failed are terminal.
   */

  datatype Phase =
    | Unstarted
    | Loaded(source: string)
    | Transformed(text: string)
    | Written
    | Done(verified: bool)
    | Failed(stage: Stage, cause: Cause)
  {
    predicate Terminal() { Done? || Failed? }
  }

  function Step(src: Path, opts: Options, o: Oracles, p: Phase): (q: Phase)
    ensures p.Terminal() ==> q == p
  {
    match p
    case Unstarted =>
      (match o.read(src) case Value(s) => Loaded(s) case Error(e) => Failed(ReadStage, e))
    case Loaded(s) =>
      (match o.precompile(s) case Value(t) => Transformed(t) case Error(e) => Failed(TransformStage, e))
    case Transformed(t) =>
      (match o.write(TargetPath(src), t) case Success => Written case Failure(e) => Failed(WriteStage, e))
    case Written =>
      if opts.skipFmt then Done(false)
      else (match o.verify(TargetPath(src), opts.gofmtBinary) case Success => Done(true) case Failure(e) => Failed(VerifyStage, e))
    case Done(_) => p
    case Failed(_, _) => p
  }

  /** `n` steps of the machine. */
  function Steps(src: Path, opts: Options, o: Oracles, p: Phase, n: nat): Phase
    decreases n
  {
    if n == 0 then p else Steps(src, opts, o, Step(src, opts, o, p), n - 1)
  }

  /** Once terminal, the machine stays where it is. */
  lemma {:induction false} TerminalIsFinal(src: Path, opts: Options, o: Oracles, p: Phase, n: nat)
    requires p.Terminal()
    ensures Steps(src, opts, o, p, n) == p
    decreases n
  {
    if n > 0 {
      TerminalIsFinal(src, opts, o, Step(src, opts, o, p), n - 1);
    }
  }

  function PhaseOutcome(p: Phase): FileOutcome
    requires p.Terminal()
  {
    if p.Done? then FileOk else FileErr(p.stage, p.cause)
  }

  /**
    ProcessFile agrees with the state machine: after four steps it has
    stopped, at Done(true) exactly when verify ran, and from then on its
    outcome is ProcessFile's outcome.
   */
  lemma ProcessFileMatchesMachine(src: Path, opts: Options, o: Oracles, n: nat)
    requires n >= 4
    ensures Steps(src, opts, o, Unstarted, n).Terminal()
    ensures PhaseOutcome(Steps(src, opts, o, Unstarted, n)) == ProcessFile(src, opts, o).outcome
    ensures Steps(src, opts, o, Unstarted, n).Done? ==>
      Steps(src, opts, o, Unstarted, n).verified == !opts.skipFmt
  {
    var p1 := Step(src, opts, o, Unstarted);
    var p2 := Step(src, opts, o, p1);
    var p3 := Step(src, opts, o, p2);
    var p4 := Step(src, opts, o, p3);
    assert Steps(src, opts, o, Unstarted, n) == Steps(src, opts, o, p4, n - 4) by {
      assert Steps(src, opts, o, Unstarted, n) == Steps(src, opts, o, p1, n - 1);
      assert Steps(src, opts, o, p1, n - 1) == Steps(src, opts, o, p2, n - 2);
      assert Steps(src, opts, o, p2, n - 2) == Steps(src, opts, o, p3, n - 3);
      assert Steps(src, opts, o, p3, n - 3) == Steps(src, opts, o, p4, n - 4);
    }
    assert p4.Terminal();
    TerminalIsFinal(src, opts, o, p4, n - 4);
  }
}
