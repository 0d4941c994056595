/** The JavaScript event loop of runtime/runtime.go, runtime/async.go and
    runtime/pipeline_ns.go as a state machine: asynchronous operations with their
    worker goroutines, the wait-group counter, the task channel of capacity one, the
    goroutine that closes it, stage jobs with their two channels, and the single main
    thread. One step is one action another goroutine can observe. */
module EventLoop {
  import opened Runs

  /** What an outstanding unit of the counter stands for: a promise made by asyncTask,
      a pipeline.stage promise, or one turn of a stage job on the main thread (the call
      of its function, or a later poll of the promise that call returned). */
  datatype Kind = Promise | Stage | Turn(stage: nat, job: nat)

  /** Working: the goroutine runs. Ready: it wants to send its closure. Sent: the
      closure is in the channel. Executing: the main thread runs it. Acted: its effect
      is done, the deferred Done is not. Settled: Done ran. */
  datatype OpState = Working | Ready | Sent | Executing | Acted | Settled

  /** A stage job: not spawned, waiting for its turn `op`, its verdict in errCh, or its
      result sent with error flag `sent`. */
  datatype Phase = Unspawned | Asking(op: nat) | Answered(failed: bool) | Reported(failed: bool, sent: bool)

  datatype JobResult = JobResult(job: nat, failed: bool)

  /** `failed` is the outcome of the work, `settles` counts resolve and reject calls.
      Of a stage, `puts` counts the values each job put in errCh, and `results` is
      everything sent on the results channel, the first `taken` of it received. */
  datatype Op = Op(
    kind: Kind,
    state: OpState,
    failed: bool,
    settles: nat,
    jobs: seq<Phase>,
    puts: seq<nat>,
    results: seq<JobResult>,
    taken: nat)

  /** A closure in the channel: an output callback of an operation, or its own. */
  datatype Item = Callback(op: nat) | Closure(op: nat)

  /** The main thread: running the script, waiting in the range loop, executing a
      closure, blocked in a send of its own, or past the loop. */
  datatype Main = Script | Idle | InTask(item: Item) | Blocked(op: nat, resume: Main) | Exited

  datatype Closer = NotStarted | Waiting | SawZero | Closed

  datatype Loop = Loop(
    ops: seq<Op>,
    count: int,
    channel: seq<Item>,
    closer: Closer,
    main: Main,
    cancelled: bool,
    panicked: bool,
    errors: seq<bool>,
    firstErr: Option<nat>)

  /** `Repoll` stands for a job whose promise is still pending. */
  datatype Verdict = Repoll | Decided(failed: bool)

  datatype Step =
    | Begin
    | BeginStage(jobs: nat)
    | Notify
    | Spawn(stage: nat, job: nat)
    | Emit(op: nat)
    | Return(op: nat, failed: bool)
    | Send(op: nat)
    | Cancel
    | Report(stage: nat, job: nat, sawCancel: bool)
    | Collect(stage: nat)
    | EndScript
    | Receive
    | Settle
    | Answer(verdict: Verdict)
    | Finish(error: bool)
    | ObserveZero
    | Close
    | Exit

  function Start(): Loop {
    Loop([], 0, [], NotStarted, Script, false, false, [], None)
  }

  /** The closure the main thread is inside, also while it is blocked in a send. */
  function Current(main: Main): Option<Item> {
    match main
    case InTask(item) => Some(item)
    case Blocked(_, InTask(item)) => Some(item)
    case _ => None
  }

  predicate RunsScript(main: Main) { main.Script? || (main.Blocked? && main.resume.Script?) }

  /** The main thread is inside JavaScript and can start operations: resolving a promise
      runs its continuations inside the settling closure. */
  predicate InScript(s: Loop) { s.main.Script? || s.main.InTask? }

  predicate Acts(s: Loop, op: nat) { op < |s.ops| && s.ops[op].state.Executing? }

  predicate IsStage(s: Loop, op: nat) {
    op < |s.ops| && s.ops[op].kind.Stage? && s.ops[op].state.Working?
  }

  predicate HasRoom(s: Loop) { |s.channel| < 1 || s.closer.Closed? }

  // ------------------------------------------------------------------ guards

  predicate Enabled(s: Loop, step: Step) {
    match step
    case Begin => InScript(s)
    case BeginStage(n) => InScript(s) && n > 0
    case Notify => InScript(s)
    case Spawn(stage, job) => IsStage(s, stage) && job < |s.ops[stage].jobs| && s.ops[stage].jobs[job].Unspawned?
    case Emit(op) => op < |s.ops| && s.ops[op].kind.Promise? && s.ops[op].state.Working? && HasRoom(s)
    case Return(op, failed) =>
      && op < |s.ops| && s.ops[op].state.Working? && !s.ops[op].kind.Turn?
      && (s.ops[op].kind.Stage? ==>
            s.ops[op].taken == |s.ops[op].jobs| && failed == AnyFailed(s.ops[op].results[..Taken(s.ops[op])]))
    case Send(op) => op < |s.ops| && s.ops[op].state.Ready? && HasRoom(s)
    case Cancel => true
    case Report(stage, job, sawCancel) =>
      && IsStage(s, stage) && job < |s.ops[stage].jobs| && s.ops[stage].jobs[job].Answered?
      && (sawCancel ==> s.cancelled)
    case Collect(stage) => IsStage(s, stage) && s.ops[stage].taken < Min(|s.ops[stage].jobs|, |s.ops[stage].results|)
    case EndScript => s.main.Script?
    case Receive => s.main.Idle? && |s.channel| > 0
    case Settle => ActsOn(s) && !s.ops[s.main.item.op].kind.Turn?
    case Answer(_) => ActsOn(s) && s.ops[s.main.item.op].kind.Turn?
    case Finish(error) =>
      && s.main.InTask?
      && (s.main.item.Closure? ==> s.main.item.op < |s.ops| && s.ops[s.main.item.op].state.Acted?)
      && (s.main.item.Callback? || s.ops[s.main.item.op].kind.Turn? ==> !error)
    case ObserveZero => s.closer.Waiting? && s.count == 0
    case Close => s.closer.SawZero?
    case Exit => s.main.Idle? && s.closer.Closed? && s.channel == []
  }

  predicate ActsOn(s: Loop) { s.main.InTask? && s.main.item.Closure? && Acts(s, s.main.item.op) }

  function Min(a: nat, b: nat): nat { if a <= b then a else b }

  function Taken(op: Op): nat { Min(op.taken, |op.results|) }

  predicate AnyFailed(results: seq<JobResult>) { exists r :: r in results && r.failed }

  // ------------------------------------------------------------------ effects

  function SetOp(s: Loop, op: nat, value: Op): Loop
    requires op < |s.ops|
  {
    s.(ops := s.ops[op := value])
  }

  /** promises.Add(1) for a new operation. */
  function Add(s: Loop, op: Op): Loop {
    s.(ops := s.ops + [op], count := s.count + 1)
  }

  function NewOp(kind: Kind, state: OpState, jobs: nat): Op {
    Op(kind, state, false, 0, seq(jobs, _ => Unspawned), seq(jobs, _ => 0), [], 0)
  }

  function Put(s: Loop, item: Item): Loop {
    if s.closer.Closed? then s.(panicked := true) else s.(channel := s.channel + [item])
  }

  function SendClosure(s: Loop, op: nat): Loop
    requires op < |s.ops|
  {
    var t := SetOp(Put(s, Closure(op)), op, s.ops[op].(state := Sent));
    if s.main.Blocked? && s.main.op == op then t.(main := s.main.resume) else t
  }

  function ReceiveTask(s: Loop): Loop
    requires |s.channel| > 0
  {
    var item := s.channel[0];
    var t := s.(main := InTask(item), channel := s.channel[1..]);
    if item.Closure? && item.op < |s.ops| then SetOp(t, item.op, s.ops[item.op].(state := Executing)) else t
  }

  function AnswerTurn(s: Loop, verdict: Verdict): Loop
    requires Enabled(s, Answer(verdict))
  {
    var i := s.main.item.op;
    var kind := s.ops[i].kind;
    var acted := SetOp(s, i, s.ops[i].(state := Acted));
    if kind.stage >= |acted.ops| || kind.job >= Min(|acted.ops[kind.stage].jobs|, |acted.ops[kind.stage].puts|) then acted
    else
      var stage := acted.ops[kind.stage];
      match verdict
      case Repoll =>
        var asking := SetOp(acted, kind.stage, stage.(jobs := stage.jobs[kind.job := Asking(|acted.ops|)]));
        Add(asking, NewOp(kind, Ready, 0))
      case Decided(failed) =>
        SetOp(acted, kind.stage, stage.(jobs := stage.jobs[kind.job := Answered(failed)],
                                        puts := stage.puts[kind.job := stage.puts[kind.job] + 1]))
  }

  /** The loop keeps the position of the first task that returned an error. */
  function FinishTask(s: Loop, error: bool): Loop
    requires Enabled(s, Finish(error))
  {
    var first := if error && s.firstErr.None? then Some(|s.errors|) else s.firstErr;
    var t := s.(main := Idle, errors := s.errors + [error], firstErr := first);
    if s.main.item.Callback? then t
    else
      var i := s.main.item.op;
      SetOp(t, i, s.ops[i].(state := Settled)).(count := s.count - 1)
  }

  function Apply(s: Loop, step: Step): Loop
    requires Enabled(s, step)
  {
    match step
    case Begin => Add(s, NewOp(Promise, Working, 0))
    case BeginStage(n) => Add(s, NewOp(Stage, Working, n))
    case Notify => Add(s, NewOp(Promise, Ready, 0)).(main := Blocked(|s.ops|, s.main))
    case Spawn(stage, job) =>
      var op := s.ops[stage];
      Add(SetOp(s, stage, op.(jobs := op.jobs[job := Asking(|s.ops|)])), NewOp(Turn(stage, job), Ready, 0))
    case Emit(op) => Put(s, Callback(op))
    case Return(op, failed) => SetOp(s, op, s.ops[op].(state := Ready, failed := failed))
    case Send(op) => SendClosure(s, op)
    case Cancel => s.(cancelled := true)
    case Report(stage, job, sawCancel) =>
      var op := s.ops[stage];
      var sent := op.jobs[job].failed || sawCancel;
      SetOp(s, stage, op.(jobs := op.jobs[job := Reported(op.jobs[job].failed, sent)],
                          results := op.results + [JobResult(job, sent)]))
    case Collect(stage) => SetOp(s, stage, s.ops[stage].(taken := s.ops[stage].taken + 1))
    case EndScript => s.(main := Idle, closer := Waiting)
    case Receive => ReceiveTask(s)
    case Settle =>
      var i := s.main.item.op;
      SetOp(s, i, s.ops[i].(state := Acted, settles := s.ops[i].settles + 1))
    case Answer(verdict) => AnswerTurn(s, verdict)
    case Finish(error) => FinishTask(s, error)
    case ObserveZero => s.(closer := SawZero)
    case Close => s.(closer := Closed)
    case Exit => s.(main := Exited)
  }

  // --------------------------------------------------------------------- runs

  function RunLoop(s: Loop, steps: seq<Step>): Loop
    requires LegalRun(s, steps)
    decreases |steps|
  {
    if steps == [] then s else RunLoop(Apply(s, steps[0]), steps[1..])
  }

  predicate LegalRun(s: Loop, steps: seq<Step>)
    decreases |steps|
  {
    steps == [] || (Enabled(s, steps[0]) && LegalRun(Apply(s, steps[0]), steps[1..]))
  }
}
