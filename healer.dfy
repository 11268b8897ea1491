/**
 * The repair client and the verify-then-commit sequence: choose a prompt
 * mode from the error text, ask the generation service for a whole new file,
 * extract the code from its reply, run the candidate from a scratch file,
 * and overwrite the target only if that run succeeds.
 */
module Healer {
  import opened Wrappers
  import opened Tracer
  import opened Files
  import Extraction

  const TargetFile: string := "target.py"
  const ScratchFile: string := "target_v2.py"
  /** The error text that selects the generator mode. */
  const StubMarker: string := "NotImplementedError"
  const ResponseKey: string := "response"

  // ---------------------------------------------------------------------
  // Mode and prompt

  /** `pat in s` for strings, scanning start positions from the left. */
  function Contains(s: string, pat: string): bool
    decreases |s|
  {
    if |pat| > |s| then false
    else if s[..|pat|] == pat then true
    else Contains(s[1..], pat)
  }

  /** `pat` starts at position `i` of `s`. */
  predicate OccursAt(s: string, pat: string, i: int) {
    0 <= i && i + |pat| <= |s| && s[i..i + |pat|] == pat
  }

  /** `pat` occurs somewhere in `s`. */
  ghost predicate Occurs(s: string, pat: string) {
    exists i :: OccursAt(s, pat, i)
  }

  lemma {:induction false} ContainsIffOccurs(s: string, pat: string)
    ensures Contains(s, pat) <==> Occurs(s, pat)
    decreases |s|
  {
    if |pat| > |s| {
      assert forall i :: !OccursAt(s, pat, i);
    } else if s[..|pat|] == pat {
      assert OccursAt(s, pat, 0);
    } else {
      ContainsIffOccurs(s[1..], pat);
      if Occurs(s, pat) {
        var i :| OccursAt(s, pat, i);
        assert i != 0;
        OccursInTail(s, pat, i);
      }
      if Occurs(s[1..], pat) {
        var i :| OccursAt(s[1..], pat, i);
        OccursInTail(s, pat, i + 1);
      }
    }
  }

  /** An occurrence after the first position is an occurrence in the tail, one place earlier. */
  lemma OccursInTail(s: string, pat: string, i: int)
    requires 1 <= i <= |s|
    ensures OccursAt(s, pat, i) <==> OccursAt(s[1..], pat, i - 1)
  {
    if i + |pat| <= |s| {
      assert s[1..][i - 1..i - 1 + |pat|] == s[i..i + |pat|];
    }
  }

  datatype Mode = Generator | Debugger

  /** Generator mode exactly when the error text mentions NotImplementedError; nothing else of it is looked at. */
  function SelectMode(error: string): (m: Mode)
    ensures m == Generator <==> Occurs(error, StubMarker)
  {
    ContainsIffOccurs(error, StubMarker);
    if Contains(error, StubMarker) then Generator else Debugger
  }

  const GeneratorTask: string := "\n        [TASK]\n        The user wants you to IMPLEMENT the function that raised NotImplementedError.\n        1. Read the comments in the function to understand the goal.\n        2. Write the complete function implementation.\n        3. Output the FULL executable file code (including the if __name__ == \"__main__\" block).\n        "
  const DebuggerTask: string := "\n        [TASK]\n        Fix the runtime crash.\n        1. Analyze the trace and error.\n        2. Modify the code to fix the bug.\n        3. Output the FULL executable file code.\n        "

  function Instruction(m: Mode): string {
    match m
    case Generator => GeneratorTask
    case Debugger => DebuggerTask
  }

  // The fixed text of the prompt template around its three holes.
  const PromptHead: string := "\n    You are a backend Python Coding Engine.\n    \n    [INPUT SOURCE]\n    ```python\n    "
  const AfterCode: string := "\n    ```\n    Error: "
  const AfterError: string := "\n    \n    "
  const PromptTail: string := "\n    \n    [STRICT OUTPUT RULES]\n    1. Output ONLY valid Python code.\n    2. Enclose code in ```python ... ``` blocks.\n    3. NO explanations. NO conversational text.\n    "

  /** The prompt text: the source, the error and the mode's instruction dropped into the template. */
  function BuildPrompt(code: string, trace: seq<StepRecord>, error: string): string {
    PromptHead + code + AfterCode + error + AfterError + Instruction(SelectMode(error)) + PromptTail
  }

  /** Where the source, the error text and the instruction sit in the prompt, each verbatim. */
  lemma PromptLayout(code: string, trace: seq<StepRecord>, error: string)
    ensures var p := BuildPrompt(code, trace, error);
      var e := |PromptHead| + |code| + |AfterCode|;
      var t := e + |error| + |AfterError|;
      && |p| == t + |Instruction(SelectMode(error))| + |PromptTail|
      && p[..|PromptHead|] == PromptHead
      && p[|PromptHead|..|PromptHead| + |code|] == code
      && p[e..e + |error|] == error
      && p[t..t + |Instruction(SelectMode(error))|] == Instruction(SelectMode(error))
      && (SelectMode(error) == Generator <==> Occurs(error, StubMarker))
  {
    TemplateSlots(PromptHead, code, AfterCode, error, AfterError, Instruction(SelectMode(error)), PromptTail);
  }

  /** Seven consecutive pieces: where the first, second, fourth and sixth sit. */
  lemma TemplateSlots(h: string, c: string, x: string, e: string, y: string, i: string, t: string)
    ensures var p := h + c + x + e + y + i + t;
      var ke := |h| + |c| + |x|;
      var ki := ke + |e| + |y|;
      && |p| == ki + |i| + |t|
      && p[..|h|] == h
      && p[|h|..|h| + |c|] == c
      && p[ke..ke + |e|] == e
      && p[ki..ki + |i|] == i
  {
    var p := h + c + x + e + y + i + t;
    var ke := |h| + |c| + |x|;
    var ki := ke + |e| + |y|;
    assert p == (h + c + x) + e + (y + i + t);
    assert p[ke..ke + |e|] == e;
    assert p == (h + c + x + e + y) + i + t;
    assert p[ki..ki + |i|] == i;
    assert p == h + c + (x + e + y + i + t);
    assert p[|h|..|h| + |c|] == c;
  }

  /** The two instructions differ, so the prompt tells the service which mode it is in. */
  lemma InstructionsDiffer()
    ensures GeneratorTask != DebuggerTask
  {
    assert |GeneratorTask| != |DebuggerTask|;
  }

  /** The prompt never depends on the trace it is handed. */
  lemma PromptIgnoresTrace(code: string, t1: seq<StepRecord>, t2: seq<StepRecord>, error: string)
    ensures BuildPrompt(code, t1, error) == BuildPrompt(code, t2, error)
  {
  }

  // ---------------------------------------------------------------------
  // The service call

  const ModelName: string := "llama3"

  /** The JSON body of the request; `stream` is always false. */
  datatype Payload = Payload(model: string, prompt: string, stream: bool, temperature: real)

  function MakePayload(prompt: string): Payload {
    Payload(ModelName, prompt, false, 0.2)
  }

  /** A client or server error status. */
  type HttpErrorCode = c: int | 400 <= c < 600 witness 400

  /**
   * How the generation service answers one request: the connection is
   * refused, it answers with an error status (4xx or 5xx, the statuses
   * `raise_for_status` raises for), its body is not JSON, its JSON is not
   * an object, or it is an object of string fields.
   */
  datatype Reply = Refused | ErrorStatus(code: HttpErrorCode) | NotJson | NotAnObject | Answered(fields: map<string, string>)

  const Unreachable: Fault := Fault(OtherException, "Could not connect to Ollama.")

  /** get_fix_from_local_brain: one request, no retry; the code extracted from the `response` field. */
  function GetFix(code: string, trace: seq<StepRecord>, error: string, service: Payload -> Reply): Result<string, Fault> {
    match service(MakePayload(BuildPrompt(code, trace, error)))
    case Refused => Err(Unreachable)
    case ErrorStatus(status) => Err(Fault(OtherException, "HTTPError"))
    case NotJson => Err(Fault(OtherException, "JSONDecodeError"))
    case NotAnObject => Err(Fault(OtherException, "AttributeError"))
    case Answered(fields) =>
      Ok(Extraction.Extract(if ResponseKey in fields then fields[ResponseKey] else ""))
  }

  /** A reply without a `response` field yields empty code rather than an error. */
  lemma MissingResponseIsEmpty(code: string, trace: seq<StepRecord>, error: string, service: Payload -> Reply)
    requires service(MakePayload(BuildPrompt(code, trace, error))).Answered?
    requires ResponseKey !in service(MakePayload(BuildPrompt(code, trace, error))).fields
    ensures GetFix(code, trace, error, service) == Ok("")
  {
    Extraction.ExtractEmpty();
  }

  /** Every failure of the request is an ordinary exception, so a caller's `except Exception` catches it. */
  lemma FixFailuresAreExceptions(code: string, trace: seq<StepRecord>, error: string, service: Payload -> Reply)
    ensures GetFix(code, trace, error, service).Err? ==> IsException(GetFix(code, trace, error, service).error)
    ensures GetFix(code, trace, error, service).Ok? <==> service(MakePayload(BuildPrompt(code, trace, error))).Answered?
  {
  }

  /** Whatever the reply, a candidate comes back trimmed. */
  lemma CandidateTrimmed(code: string, trace: seq<StepRecord>, error: string, service: Payload -> Reply)
    requires GetFix(code, trace, error, service).Ok?
    ensures Extraction.Trimmed(GetFix(code, trace, error, service).value)
  {
  }

  // ---------------------------------------------------------------------
  // Verify, then commit

  /** The scratch run succeeded (the target now holds the candidate), failed, or raised. */
  datatype Verdict = Committed | Discarded(verifyLog: Option<string>) | VerifyFault(fault: Fault)

  datatype CommitStep = CommitStep(files: map<string, string>, verdict: Verdict)

  /**
   * Write the candidate to the scratch file, run it there with a fresh
   * runner, overwrite the target only on success, then remove the scratch
   * file. A fault escaping the scratch run skips the rest.
   */
  function VerifyThenCommit(files: map<string, string>, fixed: string, py: Interpreter): CommitStep {
    var staged := files[ScratchFile := fixed];
    match Trace(staged, ScratchFile, py)
    case Propagated(f) => CommitStep(staged, VerifyFault(f))
    case Returned(rep) =>
      if rep.status == Success then CommitStep(staged[TargetFile := fixed] - {ScratchFile}, Committed)
      else CommitStep(staged - {ScratchFile}, Discarded(rep.errorLog))
  }

  method VerifyAndCommit(fs: FileSystem, fixed: string, py: Interpreter, slot: TraceSlot) returns (verdict: Verdict)
    modifies fs, slot
    ensures var step := VerifyThenCommit(old(fs.files), fixed, py);
      verdict == step.verdict && fs.files == step.files
    ensures slot.hook == null || slot.hook == old(slot.hook)
  {
    fs.Write(ScratchFile, fixed);
    var verifier := new ExecutionTracer();
    var result := verifier.RunScript(fs.files, ScratchFile, py, slot);
    if result.Propagated? {
      return VerifyFault(result.fault);
    }
    if result.report.status == Success {
      fs.Write(TargetFile, fixed);
      verdict := Committed;
    } else {
      verdict := Discarded(result.report.errorLog);
    }
    var present := fs.Exists(ScratchFile);
    if present {
      fs.Remove(ScratchFile);
    }
  }

  /** The target changes only to a candidate that compiled and ran to completion from the scratch file. */
  lemma CommitOnlyVerified(files: map<string, string>, fixed: string, py: Interpreter)
    ensures var step := VerifyThenCommit(files, fixed, py);
      && (step.verdict == Committed <==> Passes(py, fixed))
      && (step.verdict == Committed ==> TargetFile in step.files && step.files[TargetFile] == fixed)
      && (step.verdict != Committed ==>
            (TargetFile in step.files <==> TargetFile in files)
            && (TargetFile in files ==> step.files[TargetFile] == files[TargetFile]))
  {
    var staged := files[ScratchFile := fixed];
    assert staged[ScratchFile] == fixed;
  }

  /** The scratch file is gone after a run that returned, and still holds the candidate after one that raised. */
  lemma ScratchCleanup(files: map<string, string>, fixed: string, py: Interpreter)
    ensures var step := VerifyThenCommit(files, fixed, py);
      && (!step.verdict.VerifyFault? ==> ScratchFile !in step.files)
      && (step.verdict.VerifyFault? ==> ScratchFile in step.files && step.files[ScratchFile] == fixed)
  {
  }

  /** No file other than the target and the scratch file is touched. */
  lemma OtherFilesUntouched(files: map<string, string>, fixed: string, py: Interpreter, path: string)
    requires path != TargetFile && path != ScratchFile
    ensures var step := VerifyThenCommit(files, fixed, py);
      (path in step.files <==> path in files) && (path in files ==> step.files[path] == files[path])
  {
  }

  // ---------------------------------------------------------------------
  // The manual entry point

  /** Printing the last line of an empty log fails: `"".splitlines()` has no last element. */
  const NoLastLine: Fault := Fault(OtherException, "IndexError: list index out of range")

  datatype MainOutcome = AlreadyHealthy | Fixed | NotFixed | MainFault(fault: Fault)

  datatype MainStep = MainStep(files: map<string, string>, outcome: MainOutcome)

  /** A run that did not succeed carries an error log. */
  lemma FailureHasLog(st: TracerState, files: map<string, string>, path: string, py: Interpreter)
    requires Run(st, files, path, py).result.Returned?
    requires Run(st, files, path, py).result.report.status != Success
    ensures Run(st, files, path, py).result.report.errorLog.Some?
    ensures path in files
  {
  }

  /**
   * main(): trace the target; if it fails, ask for a fix and verify it before
   * committing. Nothing is caught: a fault from any step ends the run.
   */
  function RunMain(files: map<string, string>, py: Interpreter, service: Payload -> Reply): MainStep {
    match Trace(files, TargetFile, py)
    case Propagated(f) => MainStep(files, MainFault(f))
    case Returned(rep) =>
      if rep.status == Success then MainStep(files, AlreadyHealthy)
      else
        FailureHasLog(TracerState([], None), files, TargetFile, py);
        if rep.errorLog.value == "" then MainStep(files, MainFault(NoLastLine))
        else match GetFix(files[TargetFile], rep.traceHistory, rep.errorLog.value, service)
        case Err(f) => MainStep(files, MainFault(f))
        case Ok(fixed) =>
          var step := VerifyThenCommit(files, fixed, py);
          match step.verdict
          case Committed => MainStep(step.files, Fixed)
          case Discarded(_) => MainStep(step.files, NotFixed)
          case VerifyFault(f) => MainStep(step.files, MainFault(f))
  }

  method RunHealer(fs: FileSystem, py: Interpreter, service: Payload -> Reply, slot: TraceSlot)
    returns (outcome: MainOutcome)
    modifies fs, slot
    ensures var step := RunMain(old(fs.files), py, service);
      outcome == step.outcome && fs.files == step.files
    ensures slot.hook == null || slot.hook == old(slot.hook)
  {
    var tracer := new ExecutionTracer();
    var result := tracer.RunScript(fs.files, TargetFile, py, slot);
    if result.Propagated? {
      return MainFault(result.fault);
    }
    var report := result.report;
    if report.status == Success {
      return AlreadyHealthy;
    }
    FailureHasLog(TracerState([], None), fs.files, TargetFile, py);
    if report.errorLog.value == "" {
      return MainFault(NoLastLine);
    }
    var brokenCode := fs.Read(TargetFile);
    var fix := GetFix(brokenCode.value, report.traceHistory, report.errorLog.value, service);
    if fix.Err? {
      return MainFault(fix.error);
    }
    var verdict := VerifyAndCommit(fs, fix.value, py, slot);
    match verdict {
      case Committed => outcome := Fixed;
      case Discarded(_) => outcome := NotFixed;
      case VerifyFault(f) => outcome := MainFault(f);
    }
  }

  /** After main, the target holds its old text or a candidate that passed its scratch run. */
  lemma MainTargetOldOrVerified(files: map<string, string>, py: Interpreter, service: Payload -> Reply)
    requires TargetFile in files
    ensures var step := RunMain(files, py, service);
      TargetFile in step.files
      && (step.files[TargetFile] == files[TargetFile] || (step.outcome == Fixed && Passes(py, step.files[TargetFile])))
      && (step.outcome == Fixed ==> Passes(py, step.files[TargetFile]))
  {
    match Trace(files, TargetFile, py)
    case Propagated(f) =>
    case Returned(rep) =>
      if rep.status != Success {
        FailureHasLog(TracerState([], None), files, TargetFile, py);
        if rep.errorLog.value != "" {
          match GetFix(files[TargetFile], rep.traceHistory, rep.errorLog.value, service) {
            case Err(f) =>
            case Ok(fixed) => CommitOnlyVerified(files, fixed, py);
          }
        }
      }
  }
}
