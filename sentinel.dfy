/**
 * The watcher's event handler: filter and debounce change notifications for
 * the target, run the target under the tracer, and on failure ask for a fix,
 * verify it from a scratch file and commit it, all while a flag keeps a
 * second repair from starting.
 */
module Sentinel {
  import opened Wrappers
  import opened Tracer
  import opened Files
  import opened Healer

  /** Notifications closer than this (in seconds) to the last accepted one are dropped. */
  const DebounceWindow: real := 1.0

  /** `"NotImplementedError" in None`: the repair is asked for with no error text. */
  const NoErrorText: Fault := Fault(OtherException, "TypeError: argument of type 'NoneType' is not iterable")

  predicate EndsWith(s: string, suffix: string) {
    |suffix| <= |s| && s[|s| - |suffix|..] == suffix
  }

  // ---------------------------------------------------------------------
  // activate_healer

  /**
   * How a repair ends: the candidate was committed, it failed its scratch
   * run, a fault was caught and logged by the handler, or a fault that is
   * not an Exception escaped it.
   */
  datatype HealOutcome = Repaired(candidate: string) | Rejected(verifyLog: Option<string>) | Contained(fault: Fault) | Escaped(fault: Fault)

  datatype HealStep = HealStep(files: map<string, string>, outcome: HealOutcome)

  /** `except Exception` catches every fault but one that is not an Exception. */
  function Caught(f: Fault): HealOutcome {
    if IsException(f) then Contained(f) else Escaped(f)
  }

  /** The repair as a function of the files, the failure report, the interpreter and the service. */
  function Heal(files: map<string, string>, report: Report, py: Interpreter, service: Payload -> Reply): HealStep {
    if TargetFile !in files then HealStep(files, Contained(FileNotFound(TargetFile)))
    else match report.errorLog
      case None => HealStep(files, Contained(NoErrorText))
      case Some(log) =>
        match GetFix(files[TargetFile], report.traceHistory, log, service)
        case Err(f) => HealStep(files, Caught(f))
        case Ok(fixed) =>
          var step := VerifyThenCommit(files, fixed, py);
          match step.verdict
          case Committed => HealStep(step.files, Repaired(fixed))
          case Discarded(verifyLog) => HealStep(step.files, Rejected(verifyLog))
          case VerifyFault(f) => HealStep(step.files, Caught(f))
  }

  // ---------------------------------------------------------------------
  // on_modified

  /** The handler's two fields as a value. */
  datatype HandlerState = HandlerState(lastRun: real, isHealing: bool)

  /**
   * What one notification led to: it was for another file, it came too soon,
   * a repair was under way, the target ran cleanly, a repair ran, or a fault
   * escaped the scan.
   */
  datatype Reaction = Ignored | Debounced | Busy | IntegrityOk | Healed(outcome: HealOutcome) | ScanFault(fault: Fault)

  datatype ReactStep = ReactStep(reaction: Reaction, state: HandlerState, files: map<string, string>)

  /** The notification gets past the three early returns. */
  predicate Accepts(st: HandlerState, srcPath: string, now: real) {
    EndsWith(srcPath, TargetFile) && now - st.lastRun >= DebounceWindow && !st.isHealing
  }

  /**
   * One notification. The clock is read twice: `now` for the debounce test
   * and `stamp` for the value stored in lastRun.
   */
  function React(st: HandlerState, srcPath: string, now: real, stamp: real, files: map<string, string>,
                 py: Interpreter, service: Payload -> Reply): ReactStep
  {
    if !EndsWith(srcPath, TargetFile) then ReactStep(Ignored, st, files)
    else if now - st.lastRun < DebounceWindow then ReactStep(Debounced, st, files)
    else if st.isHealing then ReactStep(Busy, st, files)
    else
      var stamped := st.(lastRun := stamp);
      match Trace(files, TargetFile, py)
      case Propagated(f) => ReactStep(ScanFault(f), stamped, files)
      case Returned(rep) =>
        if rep.status == Success then ReactStep(IntegrityOk, stamped, files)
        else if rep.errorLog == Some("") then ReactStep(ScanFault(NoLastLine), stamped, files)
        else
          var h := Heal(files, rep, py, service);
          ReactStep(Healed(h.outcome), stamped.(isHealing := false), h.files)
  }

  class HealingHandler {
    var lastRun: real
    var isHealing: bool

    constructor()
      ensures lastRun == 0.0 && !isHealing
    {
      lastRun := 0.0;
      isHealing := false;
    }

    function State(): HandlerState
      reads this
    {
      HandlerState(lastRun, isHealing)
    }

    method OnModified(srcPath: string, now: real, stamp: real, fs: FileSystem, py: Interpreter,
                      service: Payload -> Reply, slot: TraceSlot) returns (reaction: Reaction)
      modifies this, fs, slot
      ensures var r := React(old(State()), srcPath, now, stamp, old(fs.files), py, service);
        reaction == r.reaction && State() == r.state && fs.files == r.files
      ensures slot.hook == null || slot.hook == old(slot.hook)
    {
      if !EndsWith(srcPath, TargetFile) {
        return Ignored;
      }
      if now - lastRun < DebounceWindow {
        return Debounced;
      }
      if isHealing {
        return Busy;
      }
      lastRun := stamp;
      var tracer := new ExecutionTracer();
      var result := tracer.RunScript(fs.files, TargetFile, py, slot);
      if result.Propagated? {
        return ScanFault(result.fault);
      }
      var report := result.report;
      if report.status == Success {
        return IntegrityOk;
      }
      if report.errorLog == Some("") {
        return ScanFault(NoLastLine);
      }
      var outcome := ActivateHealer(report, fs, py, service, slot);
      reaction := Healed(outcome);
    }

    method ActivateHealer(report: Report, fs: FileSystem, py: Interpreter, service: Payload -> Reply, slot: TraceSlot)
      returns (outcome: HealOutcome)
      modifies this, fs, slot
      ensures lastRun == old(lastRun) && !isHealing
      ensures var h := Heal(old(fs.files), report, py, service);
        outcome == h.outcome && fs.files == h.files
      ensures slot.hook == null || slot.hook == old(slot.hook)
    {
      isHealing := true;
      var brokenCode := fs.Read(TargetFile);
      if brokenCode.None? {
        outcome := Contained(FileNotFound(TargetFile));
      } else if report.errorLog.None? {
        outcome := Contained(NoErrorText);
      } else {
        var fix := GetFix(brokenCode.value, report.traceHistory, report.errorLog.value, service);
        if fix.Err? {
          outcome := Caught(fix.error);
        } else {
          var verdict := VerifyAndCommit(fs, fix.value, py, slot);
          match verdict {
            case Committed => outcome := Repaired(fix.value);
            case Discarded(verifyLog) => outcome := Rejected(verifyLog);
            case VerifyFault(f) => outcome := Caught(f);
          }
        }
      }
      isHealing := false;
    }
  }

  // ---------------------------------------------------------------------
  // Properties

  /** A notification that is not accepted changes nothing; an accepted one stamps lastRun and leaves the guard down. */
  lemma OnlyAcceptedNotificationsAct(st: HandlerState, srcPath: string, now: real, stamp: real,
                                     files: map<string, string>, py: Interpreter, service: Payload -> Reply)
    ensures var r := React(st, srcPath, now, stamp, files, py, service);
      && (r.reaction in {Ignored, Debounced, Busy} <==> !Accepts(st, srcPath, now))
      && (!Accepts(st, srcPath, now) ==> r.state == st && r.files == files)
      && (Accepts(st, srcPath, now) ==> r.state == HandlerState(stamp, false))
  {
  }

  /** `except Exception` contains every ordinary exception of a repair; only a fault that is not an Exception escapes. */
  lemma OnlyNonExceptionsEscape(files: map<string, string>, report: Report, py: Interpreter, service: Payload -> Reply)
    ensures var h := Heal(files, report, py, service);
      && (h.outcome.Escaped? ==> !IsException(h.outcome.fault))
      && (h.outcome.Contained? ==> IsException(h.outcome.fault))
  {
    if TargetFile in files && report.errorLog.Some? {
      FixFailuresAreExceptions(files[TargetFile], report.traceHistory, report.errorLog.value, service);
    }
  }

  /** The debounce test comes before the guard: a notification too soon is Debounced even during a repair. */
  lemma DebounceBeforeGuard(st: HandlerState, srcPath: string, now: real, stamp: real,
                            files: map<string, string>, py: Interpreter, service: Payload -> Reply)
    requires EndsWith(srcPath, TargetFile) && now - st.lastRun < DebounceWindow
    ensures React(st, srcPath, now, stamp, files, py, service).reaction == Debounced
  {
  }

  /** Of two notifications for the target, the second is dropped if it comes within a second of the first's stamp. */
  lemma BurstDebounced(st: HandlerState, path: string, t1: real, stamp: real, t2: real,
                       files: map<string, string>, py: Interpreter, service: Payload -> Reply)
    requires Accepts(st, path, t1)
    requires t2 < stamp + DebounceWindow
    ensures var first := React(st, path, t1, stamp, files, py, service);
      React(first.state, path, t2, t2, first.files, py, service).reaction == Debounced
  {
    var first := React(st, path, t1, stamp, files, py, service);
    OnlyAcceptedNotificationsAct(st, path, t1, stamp, files, py, service);
    assert first.state.lastRun == stamp;
  }

  /** A target that runs cleanly is left as it is. */
  lemma HealthyTargetUntouched(st: HandlerState, srcPath: string, now: real, stamp: real,
                               files: map<string, string>, py: Interpreter, service: Payload -> Reply)
    requires Accepts(st, srcPath, now)
    requires TargetFile in files && Passes(py, files[TargetFile])
    ensures var r := React(st, srcPath, now, stamp, files, py, service);
      r.reaction == IntegrityOk && r.files == files
  {
  }

  /** A repair leaves the target with its old text, or with a candidate that passed its scratch run. */
  lemma HealTargetOldOrVerified(files: map<string, string>, report: Report, py: Interpreter, service: Payload -> Reply)
    ensures var h := Heal(files, report, py, service);
      && (TargetFile in h.files <==> TargetFile in files)
      && (TargetFile in files ==>
            h.files[TargetFile] == files[TargetFile] || h.outcome == Repaired(h.files[TargetFile]))
      && (h.outcome.Repaired? ==> TargetFile in h.files && h.files[TargetFile] == h.outcome.candidate
                                  && Passes(py, h.outcome.candidate))
  {
    if TargetFile in files && report.errorLog.Some? {
      match GetFix(files[TargetFile], report.traceHistory, report.errorLog.value, service)
      case Err(f) =>
      case Ok(fixed) => CommitOnlyVerified(files, fixed, py);
    }
  }

  /** The same for one notification: the target only ever changes to a verified candidate. */
  lemma TargetOldOrVerified(st: HandlerState, srcPath: string, now: real, stamp: real,
                            files: map<string, string>, py: Interpreter, service: Payload -> Reply)
    ensures var r := React(st, srcPath, now, stamp, files, py, service);
      && (TargetFile in r.files <==> TargetFile in files)
      && (TargetFile in files ==>
            r.files[TargetFile] == files[TargetFile] || r.reaction == Healed(Repaired(r.files[TargetFile])))
      && (r.reaction.Healed? && r.reaction.outcome.Repaired? ==>
            TargetFile in r.files && Passes(py, r.files[TargetFile]))
  {
    if Accepts(st, srcPath, now) {
      match Trace(files, TargetFile, py)
      case Propagated(f) =>
      case Returned(rep) => HealTargetOldOrVerified(files, rep, py, service);
    }
  }

  /** The scratch file is gone after a repair that committed or rejected its candidate; other reactions write nothing. */
  lemma ScratchRemovedOnNormalPath(st: HandlerState, srcPath: string, now: real, stamp: real,
                                   files: map<string, string>, py: Interpreter, service: Payload -> Reply)
    ensures var r := React(st, srcPath, now, stamp, files, py, service);
      && (r.reaction.Healed? && (r.reaction.outcome.Repaired? || r.reaction.outcome.Rejected?) ==> ScratchFile !in r.files)
      && (!r.reaction.Healed? ==> r.files == files)
  {
    if Accepts(st, srcPath, now) {
      match Trace(files, TargetFile, py)
      case Propagated(f) =>
      case Returned(rep) =>
        if rep.status != Success && rep.errorLog != Some("") && TargetFile in files && rep.errorLog.Some? {
          match GetFix(files[TargetFile], rep.traceHistory, rep.errorLog.value, service)
          case Err(f) =>
          case Ok(fixed) => ScratchCleanup(files, fixed, py);
        }
    }
  }

  /**
   * When the candidate cannot even be compiled for a reason other than a
   * syntax error, the handler catches the fault, but the scratch file stays
   * behind holding the candidate and the target is untouched.
   */
  lemma ScratchLeftOnCaughtFault(files: map<string, string>, report: Report, py: Interpreter,
                                 service: Payload -> Reply, fixed: string, m: string)
    requires TargetFile in files && report.errorLog.Some?
    requires GetFix(files[TargetFile], report.traceHistory, report.errorLog.value, service) == Ok(fixed)
    requires py.compile(fixed) == Some(Fault(OtherException, m))
    ensures var h := Heal(files, report, py, service);
      && h.outcome == Contained(Fault(OtherException, m))
      && ScratchFile in h.files && h.files[ScratchFile] == fixed
      && h.files[TargetFile] == files[TargetFile]
  {
    var staged := files[ScratchFile := fixed];
    assert staged[ScratchFile] == fixed;
  }

  /** No file other than the target and the scratch file is ever touched. */
  lemma OtherFilesUntouched(st: HandlerState, srcPath: string, now: real, stamp: real,
                            files: map<string, string>, py: Interpreter, service: Payload -> Reply, path: string)
    requires path != TargetFile && path != ScratchFile
    ensures var r := React(st, srcPath, now, stamp, files, py, service);
      (path in r.files <==> path in files) && (path in files ==> r.files[path] == files[path])
  {
    if Accepts(st, srcPath, now) {
      match Trace(files, TargetFile, py)
      case Propagated(f) =>
      case Returned(rep) =>
        if rep.status != Success && rep.errorLog != Some("") && TargetFile in files && rep.errorLog.Some? {
          match GetFix(files[TargetFile], rep.traceHistory, rep.errorLog.value, service)
          case Err(f) =>
          case Ok(fixed) => Healer.OtherFilesUntouched(files, fixed, py, path);
        }
    }
  }

  // ---------------------------------------------------------------------
  // A stream of notifications

  /** One change notification with its two clock readings. */
  datatype Notification = Notification(srcPath: string, now: real, stamp: real)

  /** The handler's state and the files after a sequence of notifications, handled one at a time. */
  function ReactAll(st: HandlerState, notes: seq<Notification>, files: map<string, string>,
                    py: Interpreter, service: Payload -> Reply): (HandlerState, map<string, string>)
    decreases |notes|
  {
    if |notes| == 0 then (st, files)
    else
      var r := React(st, notes[0].srcPath, notes[0].now, notes[0].stamp, files, py, service);
      ReactAll(r.state, notes[1..], r.files, py, service)
  }

  /** Handled one at a time, notifications never leave the guard raised, so no later one is turned away as Busy. */
  lemma {:induction false} GuardNeverStuck(st: HandlerState, notes: seq<Notification>, files: map<string, string>,
                                           py: Interpreter, service: Payload -> Reply)
    requires !st.isHealing
    ensures !ReactAll(st, notes, files, py, service).0.isHealing
    decreases |notes|
  {
    if |notes| > 0 {
      var r := React(st, notes[0].srcPath, notes[0].now, notes[0].stamp, files, py, service);
      OnlyAcceptedNotificationsAct(st, notes[0].srcPath, notes[0].now, notes[0].stamp, files, py, service);
      GuardNeverStuck(r.state, notes[1..], r.files, py, service);
    }
  }

  /** Over any sequence of notifications the target holds its first text or a candidate that passed verification. */
  lemma {:induction false} TargetAlwaysOriginalOrVerified(st: HandlerState, notes: seq<Notification>,
                                                          files: map<string, string>, py: Interpreter,
                                                          service: Payload -> Reply)
    requires TargetFile in files
    ensures var (_, after) := ReactAll(st, notes, files, py, service);
      TargetFile in after && (after[TargetFile] == files[TargetFile] || Passes(py, after[TargetFile]))
    decreases |notes|
  {
    if |notes| > 0 {
      var n := notes[0];
      var r := React(st, n.srcPath, n.now, n.stamp, files, py, service);
      TargetOldOrVerified(st, n.srcPath, n.now, n.stamp, files, py, service);
      TargetAlwaysOriginalOrVerified(r.state, notes[1..], r.files, py, service);
      var (_, after) := ReactAll(r.state, notes[1..], r.files, py, service);
      assert after == ReactAll(st, notes, files, py, service).1;
    }
  }
}
