/**
 * The instrumented runner: it compiles a script, runs it as the main module
 * with a line hook installed, records one step per executed line with a
 * snapshot of the frame's variables, and classifies the run.
 *
 * The interpreter is abstract: compiling a text either succeeds or raises a
 * fault, and running it yields the stream of trace events it produces and
 * how it ends.
 */
module Tracer {
  import opened Wrappers

  // ---------------------------------------------------------------------
  // The abstract interpreter

  /** The trace events the interpreter reports to a hook. */
  datatype EventKind = CallEvent | LineEvent | ReturnEvent | ExceptionEvent | OpcodeEvent

  /** A local value: its str() succeeds with some text, or raises. */
  datatype Value = Renderable(text: string) | Unrenderable

  datatype Binding = Binding(name: string, value: Value)

  /** The frame an event is reported in: its current line and its locals, in dictionary order. */
  datatype Frame = Frame(line: int, locals: seq<Binding>)

  datatype Event = Event(kind: EventKind, frame: Frame)

  /**
   * Where a fault sits in the exception hierarchy: SyntaxError and its
   * subclasses, any other subclass of Exception, or a BaseException that is
   * not an Exception (SystemExit, KeyboardInterrupt).
   */
  datatype FaultClass = SyntaxErrorClass | OtherException | NonException

  datatype Fault = Fault(cls: FaultClass, message: string)

  /** Caught by `except Exception`. */
  predicate IsException(f: Fault) {
    f.cls != NonException
  }

  datatype Ending = Finished | Raised(fault: Fault, traceback: string)

  /** What running a compiled script produces: its events in order, then how it ends. */
  datatype Execution = Execution(events: seq<Event>, ending: Ending)

  /**
   * compile: the fault a source text raises when compiled, if any.
   * exec: the run of a source text whose globals name the module as given.
   */
  datatype Interpreter = Interpreter(compile: string -> Option<Fault>, exec: (string, string) -> Execution)

  /** The module name the runner gives the script, so that its main-guard blocks run. */
  const MainModule: string := "__main__"
  const Placeholder: string := "<unprintable>"
  const SyntaxPrefix: string := "Syntax Error: "

  function FileNotFound(path: string): Fault {
    Fault(OtherException, "[Errno 2] No such file or directory: '" + path + "'")
  }

  // ---------------------------------------------------------------------
  // Reports

  datatype Status = Success | RuntimeError | SyntaxError

  datatype StepRecord = StepRecord(line: int, variables: map<string, string>)

  datatype Report = Report(status: Status, traceHistory: seq<StepRecord>, errorLog: Option<string>)

  /** A run either returns a report or lets a fault escape to its caller. */
  datatype RunResult = Returned(report: Report) | Propagated(fault: Fault)

  /** Names the runner itself puts in scope (`__name__`, `__builtins__`, ...) start with two underscores. */
  predicate Reserved(name: string) {
    |name| >= 2 && name[0] == '_' && name[1] == '_'
  }

  function Render(v: Value): string {
    match v
    case Renderable(t) => t
    case Unrenderable => Placeholder
  }

  /** The variables dictionary built from a frame's locals: later bindings of a name overwrite earlier ones. */
  function Snapshot(locals: seq<Binding>): map<string, string>
    decreases |locals|
  {
    if locals == [] then map[]
    else
      var b := locals[|locals| - 1];
      var m := Snapshot(locals[..|locals| - 1]);
      if Reserved(b.name) then m else m[b.name := Render(b.value)]
  }

  /** What the hook appends for one event. */
  function RecordOf(e: Event): seq<StepRecord> {
    if e.kind == LineEvent then [StepRecord(e.frame.line, Snapshot(e.frame.locals))] else []
  }

  /** What the hook appends over a whole event stream. */
  function Records(events: seq<Event>): seq<StepRecord>
    decreases |events|
  {
    if events == [] then []
    else Records(events[..|events| - 1]) + RecordOf(events[|events| - 1])
  }

  /** The two fields of a runner instance. */
  datatype TracerState = TracerState(history: seq<StepRecord>, error: Option<string>)

  datatype RunStep = RunStep(result: RunResult, state: TracerState)

  /** run_script on a runner in state `st`, for the file `path` of `files`. */
  function Run(st: TracerState, files: map<string, string>, path: string, py: Interpreter): RunStep {
    if path !in files then RunStep(Propagated(FileNotFound(path)), st)
    else
      var code := files[path];
      match py.compile(code)
      case Some(f) =>
        if f.cls == SyntaxErrorClass then
          RunStep(Returned(Report(SyntaxError, [], Some(SyntaxPrefix + f.message))), st)
        else RunStep(Propagated(f), st)
      case None =>
        var run := py.exec(code, MainModule);
        var history := st.history + Records(run.events);
        match run.ending
        case Finished =>
          RunStep(Returned(Report(Success, history, st.error)), TracerState(history, st.error))
        case Raised(f, tb) =>
          if IsException(f) then
            RunStep(Returned(Report(RuntimeError, history, Some(tb))), TracerState(history, Some(tb)))
          else RunStep(Propagated(f), TracerState(history, st.error))
  }

  /** The hook is installed exactly when the script compiled. */
  predicate Executes(files: map<string, string>, path: string, py: Interpreter) {
    path in files && py.compile(files[path]).None?
  }

  /** A run by a freshly constructed runner. */
  function Trace(files: map<string, string>, path: string, py: Interpreter): RunResult {
    Run(TracerState([], None), files, path, py).result
  }

  /** The source text compiles and runs to completion as the main module. */
  predicate Passes(py: Interpreter, source: string) {
    py.compile(source).None? && py.exec(source, MainModule).ending.Finished?
  }

  // ---------------------------------------------------------------------
  // The runner

  /** The interpreter's single trace-function slot (sys.settrace). */
  class TraceSlot {
    var hook: ExecutionTracer?

    constructor()
      ensures hook == null
    {
      hook := null;
    }
  }

  /** The variables dictionary, built binding by binding. */
  method CaptureVariables(locals: seq<Binding>) returns (vars: map<string, string>)
    ensures vars == Snapshot(locals)
  {
    vars := map[];
    for i := 0 to |locals|
      invariant vars == Snapshot(locals[..i])
    {
      assert locals[..i + 1][..i] == locals[..i];
      var b := locals[i];
      if !Reserved(b.name) {
        vars := vars[b.name := Render(b.value)];
      }
    }
    assert locals[..|locals|] == locals;
  }

  class ExecutionTracer {
    var history: seq<StepRecord>
    var error: Option<string>

    constructor()
      ensures history == [] && error == None
    {
      history := [];
      error := None;
    }

    /** The hook: one record per line event, nothing for the others; it stays installed by returning itself. */
    method TraceCalls(event: Event) returns (hook: ExecutionTracer)
      modifies this
      ensures hook == this
      ensures history == old(history) + RecordOf(event)
      ensures error == old(error)
    {
      if event.kind != LineEvent {
        return this;
      }
      var lineNo := event.frame.line;
      var vars := CaptureVariables(event.frame.locals);
      history := history + [StepRecord(lineNo, vars)];
      return this;
    }

    method RunScript(files: map<string, string>, path: string, py: Interpreter, slot: TraceSlot)
      returns (result: RunResult)
      modifies this, slot
      ensures var step := Run(TracerState(old(history), old(error)), files, path, py);
        result == step.result && history == step.state.history && error == step.state.error
      ensures slot.hook == if Executes(files, path, py) then null else old(slot.hook)
    {
      if path !in files {
        return Propagated(FileNotFound(path));
      }
      var code := files[path];
      var compiled := py.compile(code);
      if compiled.Some? {
        var f := compiled.value;
        if f.cls == SyntaxErrorClass {
          return Returned(Report(SyntaxError, [], Some(SyntaxPrefix + f.message)));
        }
        return Propagated(f);
      }
      slot.hook := this;
      var run := py.exec(code, MainModule);
      ghost var before := history;
      for i := 0 to |run.events|
        invariant slot.hook == this
        invariant history == before + Records(run.events[..i])
        invariant error == old(error)
      {
        assert run.events[..i + 1][..i] == run.events[..i];
        var hook := slot.hook;
        // The hook hands back the local trace function, which is itself; the slot keeps it.
        var next := hook.TraceCalls(run.events[i]);
      }
      assert run.events[..|run.events|] == run.events;
      var status: Status;
      match run.ending {
        case Finished =>
          status := Success;
        case Raised(f, tb) =>
          if !IsException(f) {
            slot.hook := null;
            return Propagated(f);
          }
          slot.hook := null;
          status := RuntimeError;
          error := Some(tb);
      }
      slot.hook := null;
      return Returned(Report(status, history, error));
    }
  }

  // ---------------------------------------------------------------------
  // What the hook records

  predicate DistinctNames(locals: seq<Binding>) {
    forall i, j :: 0 <= i < j < |locals| ==> locals[i].name != locals[j].name
  }

  /** The snapshot holds exactly the locals whose names are not reserved. */
  lemma {:induction false} SnapshotKeys(locals: seq<Binding>)
    ensures forall k :: k in Snapshot(locals) <==>
      !Reserved(k) && exists i :: 0 <= i < |locals| && locals[i].name == k
    decreases |locals|
  {
    if locals != [] {
      var init := locals[..|locals| - 1];
      SnapshotKeys(init);
      assert forall i :: 0 <= i < |init| ==> init[i] == locals[i];
      forall k | !Reserved(k) && (exists i :: 0 <= i < |locals| && locals[i].name == k)
        ensures k in Snapshot(locals)
      {
        var i :| 0 <= i < |locals| && locals[i].name == k;
        if i < |init| { assert init[i].name == k; }
      }
    }
  }

  /** Each kept local is recorded as its rendering, or the placeholder when rendering fails. */
  lemma {:induction false} SnapshotValue(locals: seq<Binding>, i: nat)
    requires DistinctNames(locals)
    requires i < |locals| && !Reserved(locals[i].name)
    ensures locals[i].name in Snapshot(locals)
    ensures Snapshot(locals)[locals[i].name] ==
      if locals[i].value.Unrenderable? then Placeholder else locals[i].value.text
    decreases |locals|
  {
    var init := locals[..|locals| - 1];
    if i < |init| {
      assert init[i] == locals[i];
      assert DistinctNames(init);
      SnapshotValue(init, i);
      assert locals[|locals| - 1].name != locals[i].name;
    }
  }

  /** The hook appends over a concatenated stream what it appends over each part in turn. */
  lemma {:induction false} RecordsConcat(a: seq<Event>, b: seq<Event>)
    ensures Records(a + b) == Records(a) + Records(b)
    decreases |b|
  {
    if b == [] {
      assert a + b == a;
    } else {
      var b' := b[..|b| - 1];
      assert (a + b)[..|a + b| - 1] == a + b';
      RecordsConcat(a, b');
    }
  }

  /** Over line events only, record k is the k-th event's line with its variables snapshot. */
  lemma {:induction false} RecordsOfLines(events: seq<Event>)
    requires forall i :: 0 <= i < |events| ==> events[i].kind == LineEvent
    ensures |Records(events)| == |events|
    ensures forall k :: 0 <= k < |events| ==>
      Records(events)[k] == StepRecord(events[k].frame.line, Snapshot(events[k].frame.locals))
    decreases |events|
  {
    if events != [] {
      var init := events[..|events| - 1];
      RecordsOfLines(init);
    }
  }

  /** Events other than line events record nothing. */
  lemma {:induction false} RecordsSkipOthers(events: seq<Event>)
    requires forall i :: 0 <= i < |events| ==> events[i].kind != LineEvent
    ensures Records(events) == []
    decreases |events|
  {
    if events != [] {
      RecordsSkipOthers(events[..|events| - 1]);
    }
  }

  // ---------------------------------------------------------------------
  // How a run is classified

  /** Exactly one of three reports, or an escaping fault, each for exactly its own kind of script. */
  lemma Classification(st: TracerState, files: map<string, string>, path: string, py: Interpreter)
    ensures var r := Run(st, files, path, py).result;
      && (r.Returned? && r.report.status == Success <==> path in files && Passes(py, files[path]))
      && (r.Returned? && r.report.status == SyntaxError <==>
            path in files && py.compile(files[path]).Some? && py.compile(files[path]).value.cls == SyntaxErrorClass)
      && (r.Returned? && r.report.status == RuntimeError <==>
            Executes(files, path, py) && py.exec(files[path], MainModule).ending.Raised?
            && IsException(py.exec(files[path], MainModule).ending.fault))
  {
  }

  /** A script that does not compile yields an empty trace and the diagnostic, and leaves the runner as it was. */
  lemma SyntaxErrorRun(st: TracerState, files: map<string, string>, path: string, py: Interpreter)
    requires path in files && py.compile(files[path]).Some?
    requires py.compile(files[path]).value.cls == SyntaxErrorClass
    ensures var step := Run(st, files, path, py);
      && step.result == Returned(Report(SyntaxError, [], Some(SyntaxPrefix + py.compile(files[path]).value.message)))
      && step.state == st
  {
  }

  /** A faulting script keeps the steps recorded up to the fault, after the runner's earlier history. */
  lemma RuntimeErrorRun(st: TracerState, files: map<string, string>, path: string, py: Interpreter)
    requires Executes(files, path, py)
    requires var run := py.exec(files[path], MainModule); run.ending.Raised? && IsException(run.ending.fault)
    ensures var run := py.exec(files[path], MainModule);
      var step := Run(st, files, path, py);
      && step.result == Returned(Report(RuntimeError, st.history + Records(run.events), Some(run.ending.traceback)))
      && step.state.error == Some(run.ending.traceback)
  {
  }

  /** A fresh runner reports success with no error log and exactly the steps of this run. */
  lemma FreshSuccess(files: map<string, string>, path: string, py: Interpreter)
    requires path in files && Passes(py, files[path])
    ensures Trace(files, path, py) ==
      Returned(Report(Success, Records(py.exec(files[path], MainModule).events), None))
  {
  }

  /** A runner is never reset: a second run on the same instance appends to the first run's history. */
  lemma HistoryAccumulates(st: TracerState, files: map<string, string>, path1: string, path2: string, py: Interpreter)
    requires Executes(files, path1, py) && Executes(files, path2, py)
    ensures var first := Run(st, files, path1, py);
      var second := Run(first.state, files, path2, py);
      second.state.history ==
        st.history + Records(py.exec(files[path1], MainModule).events) + Records(py.exec(files[path2], MainModule).events)
  {
    var first := Run(st, files, path1, py);
    assert first.state.history == st.history + Records(py.exec(files[path1], MainModule).events);
  }

  /** A success after a fault on the same instance still reports the earlier traceback. */
  lemma StaleErrorLog(files: map<string, string>, bad: string, good: string, py: Interpreter)
    requires Executes(files, bad, py)
    requires var run := py.exec(files[bad], MainModule); run.ending.Raised? && IsException(run.ending.fault)
    requires good in files && Passes(py, files[good])
    ensures var first := Run(TracerState([], None), files, bad, py);
      var second := Run(first.state, files, good, py);
      second.result.Returned? && second.result.report.status == Success
      && second.result.report.errorLog == Some(py.exec(files[bad], MainModule).ending.traceback)
  {
  }

  /** The status depends only on the script, not on what the runner recorded before. */
  lemma StatusIndependentOfRunner(st1: TracerState, st2: TracerState, files: map<string, string>, path: string, py: Interpreter)
    ensures var r1 := Run(st1, files, path, py).result;
      var r2 := Run(st2, files, path, py).result;
      r1.Returned? == r2.Returned? && (r1.Returned? ==> r1.report.status == r2.report.status)
  {
  }

  /**
   * The runner's own check: a script whose main-guard block raises ValueError
   * is reported as a runtime error. This is the runtime-error case with the
   * self-test's exception; that the script runs as the main module is stated
   * by RunsAsMain.
   */
  lemma MainGuardRuns(files: map<string, string>, path: string, py: Interpreter, tb: string)
    requires path in files && py.compile(files[path]).None?
    requires py.exec(files[path], MainModule).ending == Raised(Fault(OtherException, "It Works"), tb)
    ensures Trace(files, path, py).Returned?
    ensures Trace(files, path, py).report.status == RuntimeError
  {
  }

  /**
   * Only the execution under the module name `__main__` matters: two
   * interpreters that compile the script alike and agree on running it as
   * `__main__` give the same run, however they differ under any other name.
   */
  lemma RunsAsMain(st: TracerState, files: map<string, string>, path: string, py1: Interpreter, py2: Interpreter)
    requires path in files
    requires py1.compile(files[path]) == py2.compile(files[path])
    requires py1.exec(files[path], MainModule) == py2.exec(files[path], MainModule)
    ensures Run(st, files, path, py1) == Run(st, files, path, py2)
  {
  }

  /** A script that finishes under any other module name but raises as `__main__` is reported as a runtime error. */
  lemma GuardedFailureIsSeen(files: map<string, string>, path: string, py: Interpreter, f: Fault, tb: string)
    requires path in files && py.compile(files[path]).None?
    requires IsException(f)
    requires forall m :: m != MainModule ==> py.exec(files[path], m).ending == Finished
    requires py.exec(files[path], MainModule).ending == Raised(f, tb)
    ensures Trace(files, path, py) == Returned(Report(RuntimeError, Records(py.exec(files[path], MainModule).events), Some(tb)))
  {
  }

}
