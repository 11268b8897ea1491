# isolab self-repair loop in Dafny

isolab watches one Python file, `target.py`. When the file changes, the
sentinel runs it under a line tracer. If the run fails, the sentinel sends the
source and the error to a local code-generation service (Ollama) and gets back
a whole new file. It writes that candidate to a scratch file, `target_v2.py`,
and runs the scratch file under a fresh tracer. Only a candidate whose scratch
run succeeds overwrites the target. This project models that loop and proves
what it guarantees.

Modules:

- `Wrappers`: `Option` and `Result`.
- `Files`: the working directory as a `FileSystem` object whose `files` map
  the methods reassign.
- `Target`: the sample program, a three-way-partition quicksort over a list
  of integers. It is proved to return the sorted permutation of its input,
  which makes it the unique sorting.
- `Extraction`: `extract_code`. A direct scan for the first fenced block is
  proved equal to a reference model of the regex search. The reference follows
  the backtracking order of `(?:python)?`, `\s*` and the lazy group.
  - `Strip` is Python's `str.strip` over Python's whitespace set.
- `Tracer`: the `ExecutionTracer` class.
  - `compile` and `exec` form an `Interpreter` value: `compile` yields an
    optional fault, and `exec` yields the trace events and how the run ended.
  - `sys.settrace` is a `TraceSlot` object holding the installed hook.
  - The methods are proved against the pure function `Run`, which maps the
    runner's state, the files, the path and the interpreter to a result and a
    new state.
- `Healer`: the repair client and the manual entry point.
  - Mode selection and the exact prompt text.
  - The request payload and the ways the service can answer.
  - `VerifyThenCommit`, the verify-then-commit sequence, and `RunMain`, which
    models `main()`.
- `Sentinel`: the `HealingHandler` class.
  - Path filtering, the one-second debounce and the `is_healing` guard.
  - The scan, and the repair that catches `Exception`.
  - The methods are proved against the pure functions `React` and `Heal`.
    `ReactAll` folds `React` over a stream of notifications.

The clock is read twice in `on_modified`: once for the debounce test and once
for the value stored in `last_run`. It is modelled as two `real` parameters.
The generation service is a function from payload to reply. Faults carry a
class:

- a syntax error;
- another `Exception`;
- a `BaseException` that is not an `Exception` (such as `SystemExit`), which
  `except Exception` does not catch.

Two behaviours of the code are worth knowing, and the model keeps both:

- The scratch file is removed inside the `try` block (sentinel.py:70-71), not
  in `finally`. One would expect the scratch file to be deleted on every path.
  Instead, a fault caught after the candidate was written leaves
  `target_v2.py` behind with the candidate in it.
  `Sentinel.ScratchLeftOnCaughtFault` exhibits this.
- `error` is set only by a runtime error and never cleared (tracer.py:8, 55,
  62). One would expect a successful run to report no error log. Instead, a
  runner reused after a failure reports the stale log with a success status.
  `Tracer.StaleErrorLog` states this.

## Model

| member | source | states |
|---|---|---|
| Target.Select | target.py:5-7 | each comprehension keeps exactly the elements on its side of the pivot, with their full multiplicity; it is strictly shorter when some element is on another side |
| Target.PivotIndex | target.py:4 | `len(arr) // 2` is a valid index of a non-empty list |
| Target.Quicksort | target.py:1-8 | the result is sorted and is a permutation of the input |
| Target.PartsMultiset | target.py:5-8 | the three partitions together hold exactly the input's elements |
| Target.SortedAround | target.py:8 | concatenating sorted smaller elements, the pivot copies and sorted larger elements gives a sorted list |
| Target.SelectConcat | target.py:5-7 | filtering distributes over concatenation, so input order is kept |
| Target.SidesShrink | target.py:4-7 | both strict sides are shorter than the input and the pivot lands in the middle, so the recursion terminates |
| Target.ShortListUnchanged | target.py:2-3 | lists of length 0 or 1 are returned as they are |
| Target.SortedPermutationUnique | target.py:1-8 | two sorted permutations of the same multiset are equal |
| Target.QuicksortIsTheSorting | target.py:1-8 | quicksort equals any sorted permutation of its input |
| Target.DemoSort | target.py:10-14 | the demo list [5, 2, 9, 1, 5, 6] sorts to [1, 2, 5, 5, 6, 9] |
| Files.FileSystem.Read | sentinel.py:44-45 | reading gives the file's text, or nothing when it does not exist |
| Files.FileSystem.Write | sentinel.py:52-53 | writing creates or replaces exactly that file |
| Files.FileSystem.Exists | sentinel.py:70 | true exactly when the file exists |
| Files.FileSystem.Remove | sentinel.py:71 | removes exactly that file, which must exist |
| Extraction.FenceFrom | healer.py:12-13 | the first triple backtick at or after a position, or none |
| Extraction.AfterTag | healer.py:12 | the optional `python` tag is consumed whole or not at all, and holds no backtick |
| Extraction.SkipSpace | healer.py:12 | `\s*` consumes the longest run of whitespace |
| Extraction.Strip | healer.py:15-16 | the result has no whitespace at either end and is the input with whitespace-only prefix and suffix removed |
| Extraction.GroupAfter | healer.py:12 | the lazy group runs up to the first closing fence and holds no fence |
| Extraction.FindBlock | healer.py:12-13 | the group of the first fenced block holds no fence |
| Extraction.Extract | healer.py:11-16 | the extracted code is always trimmed |
| Extraction.FenceFromSkip | healer.py:12 | text without backticks cannot start a fence |
| Extraction.TrySpacesFails | healer.py:12 | backtracking `\s*` finds no group when no closing fence follows |
| Extraction.TryAfterFenceIsGroup | healer.py:12 | the greedy tag and the backtracking spaces match exactly the group the direct scan finds |
| Extraction.SearchSkips | healer.py:13 | positions that start no fence give no match |
| Extraction.SearchFails | healer.py:13-14 | with no match at any position, the search fails |
| Extraction.NoLaterMatch | healer.py:12-13 | an opening fence with no closing fence rules out every later match |
| Extraction.FindBlockIsSearch | healer.py:12-13 | the direct scan equals the leftmost regex match |
| Extraction.ExtractFollowsSearch | healer.py:13-16 | with no match the whole text is stripped, otherwise the matched group is stripped |
| Extraction.StripPadded | healer.py:15-16 | stripping removes exactly whitespace padding around a trimmed text |
| Extraction.StripTrimmed | healer.py:15-16 | stripping a trimmed text changes nothing |
| Extraction.ExtractedBlockHasNoFence | healer.py:12-15 | code taken from a block never contains a fence |
| Extraction.ExtractIdempotent | healer.py:11-16 | extracting again from extracted block code changes nothing |
| Extraction.ExtractEmpty | healer.py:16 | the empty reply gives empty code |
| Extraction.ExtractFencedBlock | healer.py:11-16 | a reply with prose, a fence, an optional `python` tag, whitespace, trimmed code, whitespace and a closing fence yields exactly that code |
| Extraction.VersionedTagLeaksIntoCode | healer.py:12 | a ```` ```python3 ```` tag leaves the `3` at the head of the extracted code |
| Tracer.CaptureVariables | tracer.py:15-22 | the variables dictionary built binding by binding equals the snapshot of the frame's locals |
| Tracer.Snapshot | tracer.py:15-22 | no contract; defined by its body: the names not starting with `__` mapped to their rendering, a later binding of a name overriding an earlier one; see `Tracer.SnapshotKeys`, `Tracer.SnapshotValue` and `Tracer.CaptureVariables` |
| Tracer.RecordOf | tracer.py:11-27 | no contract; defined by its body: one record of line number and variables for a line event, none otherwise; see `Tracer.ExecutionTracer.TraceCalls` |
| Tracer.Records | tracer.py:10-28 | no contract; defined by its body: the records the hook appends over a whole event stream; see `Tracer.RecordsConcat`, `Tracer.RecordsOfLines` and `Tracer.RecordsSkipOthers` |
| Tracer.Run | tracer.py:30-63 | no contract; defined by its body: `run_script` on a runner state, giving the report or the escaping fault and the new state; see `Tracer.Classification` and the lemmas after it, and `Tracer.ExecutionTracer.RunScript` |
| Tracer.SnapshotKeys | tracer.py:17-18 | the captured names are exactly the local names not starting with `__` |
| Tracer.SnapshotValue | tracer.py:17-22 | each captured value is the rendered text of the local, or `<unprintable>` when rendering fails |
| Tracer.ExecutionTracer.constructor | tracer.py:6-8 | a new runner has empty history and no error |
| Tracer.ExecutionTracer.TraceCalls | tracer.py:10-28 | a line event appends one record, other events append nothing, and the hook returns itself |
| Tracer.ExecutionTracer.RunScript | tracer.py:30-63 | the result and the new history and error are those of `Run`; the trace hook is cleared after any execution and untouched when the file is missing or fails to compile |
| Tracer.RecordsConcat | tracer.py:10-28 | the records of consecutive event streams concatenate |
| Tracer.RecordsOfLines | tracer.py:11-27 | line events give one record each, in order, with their line numbers |
| Tracer.RecordsSkipOthers | tracer.py:11-12 | call, return, exception and opcode events are not recorded |
| Tracer.Classification | tracer.py:30-63 | the status is syntax error, runtime error or success exactly as compile fails with a syntax error, execution raises an Exception, or execution finishes |
| Tracer.SyntaxErrorRun | tracer.py:34-41 | a syntax error gives an empty trace, the prefixed message, and an unchanged runner |
| Tracer.RuntimeErrorRun | tracer.py:52-55 | an Exception during execution gives a runtime error whose log is the traceback |
| Tracer.FreshSuccess | tracer.py:43-63 | a fresh runner on a passing file reports success, the file's records, and no log |
| Tracer.HistoryAccumulates | tracer.py:24-27 | a reused runner's history keeps the records of earlier runs |
| Tracer.StaleErrorLog | tracer.py:52-62 | a runner reused after a failure reports the old traceback with a success status |
| Tracer.StatusIndependentOfRunner | tracer.py:30-63 | the status does not depend on the runner's earlier state |
| Tracer.MainGuardRuns | tracer.py:65-73 | the runner's self-test: a script whose main-guard block raises ValueError is reported as a runtime error |
| Tracer.RunsAsMain | tracer.py:47-50 | the run depends on execution only under the module name `__main__`: interpreters agreeing there give the same run |
| Tracer.GuardedFailureIsSeen | tracer.py:45-55 | a script that raises only when run as `__main__` is reported as a runtime error with its traceback |
| Healer.ContainsIffOccurs | healer.py:20 | the substring scan is true exactly when the pattern occurs |
| Healer.SelectMode | healer.py:20-37 | generator mode exactly when the error text contains `NotImplementedError` |
| Healer.PromptLayout | healer.py:39-54 | the prompt holds the code, the error text and the mode's instruction verbatim at fixed places in the template |
| Healer.InstructionsDiffer | healer.py:22-37 | the two modes give different instructions |
| Healer.BuildPrompt | healer.py:39-54 | no contract; defined by its body: the template with the code, the error and the mode's instruction filled in; see `Healer.PromptLayout` and `Healer.PromptIgnoresTrace` |
| Healer.PromptIgnoresTrace | healer.py:18-54 | the trace passed in never affects the prompt |
| Healer.GetFix | healer.py:18-75 | no contract; defined by its body: one request with the prompt, then the extracted `response` field or the fault for each way the request fails; see `Healer.MissingResponseIsEmpty`, `Healer.FixFailuresAreExceptions` and `Healer.CandidateTrimmed` |
| Healer.MissingResponseIsEmpty | healer.py:71-72 | a JSON reply without `response` yields empty code, not an error |
| Healer.FixFailuresAreExceptions | healer.py:65-75 | the request yields code exactly when the service answers with a JSON object, and every failure is an ordinary Exception |
| Healer.CandidateTrimmed | healer.py:72 | a returned candidate is trimmed |
| Healer.VerifyThenCommit | healer.py:89-101 | no contract; defined by its body: write the scratch file, run it with a fresh runner, commit on success, remove the scratch file unless the run raised; see `Healer.CommitOnlyVerified`, `Healer.ScratchCleanup` and `Healer.OtherFilesUntouched` |
| Healer.VerifyAndCommit | healer.py:89-101 | the verdict and the new files are those of `VerifyThenCommit`, and no trace hook other than the one found stays installed |
| Healer.CommitOnlyVerified | healer.py:89-99 | the target is overwritten exactly when the candidate passes its scratch run, and otherwise keeps its text |
| Healer.ScratchCleanup | healer.py:100-101 | the scratch file is removed after a run that returned, and holds the candidate after one that raised |
| Healer.OtherFilesUntouched | healer.py:89-101 | no file other than the target and the scratch file changes |
| Healer.FailureHasLog | tracer.py:34-63 | a failing run always carries an error log |
| Healer.RunMain | healer.py:78-101 | no contract; defined by its body: `main()` with every fault propagating; see `Healer.MainTargetOldOrVerified` and `Healer.RunHealer` |
| Healer.RunHealer | healer.py:78-101 | the outcome and the new files are those of `RunMain`, and no trace hook other than the one found stays installed |
| Healer.MainTargetOldOrVerified | healer.py:78-101 | after `main` the target holds its old text or a candidate that passed its scratch run |
| Sentinel.HealingHandler.constructor | sentinel.py:13-15 | a new handler has `last_run` 0 and the guard down |
| Sentinel.Heal | sentinel.py:39-77 | no contract; defined by its body: `activate_healer` as a function of files, report, interpreter and service; see `Sentinel.HealTargetOldOrVerified`, `Sentinel.OnlyNonExceptionsEscape` and `Sentinel.HealingHandler.ActivateHealer` |
| Sentinel.React | sentinel.py:17-37 | no contract; defined by its body: `on_modified` as a function of the handler state, path, clock readings and files; see `Sentinel.OnlyAcceptedNotificationsAct` and `Sentinel.HealingHandler.OnModified` |
| Sentinel.HealingHandler.OnModified | sentinel.py:17-37 | the reaction, the new `last_run` and `is_healing`, and the new files are those of `React`, and no trace hook other than the one found stays installed |
| Sentinel.HealingHandler.ActivateHealer | sentinel.py:39-77 | the outcome and new files are those of `Heal`; the guard is down afterwards, `last_run` is unchanged, and no trace hook other than the one found stays installed |
| Sentinel.OnlyAcceptedNotificationsAct | sentinel.py:17-27 | a notification is ignored, debounced or turned away exactly when it fails the path, time or guard test; then nothing changes, otherwise `last_run` takes the stamp and the guard ends down |
| Sentinel.OnlyNonExceptionsEscape | sentinel.py:43-77 | a fault of a repair is contained exactly when it is an ordinary Exception; only a fault that is not an Exception escapes |
| Sentinel.DebounceBeforeGuard | sentinel.py:21-25 | a notification within a second is debounced even while a repair runs |
| Sentinel.BurstDebounced | sentinel.py:21-27 | a second notification within a second of an accepted one's stamp is debounced |
| Sentinel.HealthyTargetUntouched | sentinel.py:30-34 | a target that runs cleanly gives an integrity pass and no file changes |
| Sentinel.HealTargetOldOrVerified | sentinel.py:43-71 | a repair keeps the target present; it holds the old text or the committed candidate, and a committed candidate passed its scratch run |
| Sentinel.TargetOldOrVerified | sentinel.py:17-77 | after one notification the target holds its old text or a repaired candidate that passed its scratch run |
| Sentinel.ScratchRemovedOnNormalPath | sentinel.py:58-71 | after a committed or rejected candidate the scratch file is gone, and reactions without a repair write nothing |
| Sentinel.ScratchLeftOnCaughtFault | sentinel.py:51-74 | a candidate whose compile raises a non-syntax Exception is caught, the scratch file stays with the candidate, and the target is unchanged |
| Sentinel.OtherFilesUntouched | sentinel.py:39-77 | no file other than the target and the scratch file changes |
| Sentinel.GuardNeverStuck | sentinel.py:39-77 | over any stream of notifications handled one at a time, the guard is down after each |
| Sentinel.ReactAll | sentinel.py:17-77 | no contract; defined by its body: a stream of notifications handled one at a time; see `Sentinel.GuardNeverStuck` and `Sentinel.TargetAlwaysOriginalOrVerified` |
| Sentinel.TargetAlwaysOriginalOrVerified | sentinel.py:17-77 | over any stream of notifications, the target holds its original text or a candidate that passed its scratch run |

## Left out

- The watchdog observer, `start_sentinel` and the sleep loop (sentinel.py:79-96) are not modelled. Notifications arrive as method calls, and `ReactAll` replays a stream of them one at a time.
- Concurrent delivery of notifications during a repair is not modelled. The model hands notifications to the handler one at a time, so none arrives mid-repair. `Busy` is reached only when `React` is given a state whose guard is already up, and `Sentinel.GuardNeverStuck` proves that one-at-a-time handling never produces such a state.
- `time.sleep(1)` in `finally` is not modelled. Time is a parameter, and the pause only shifts later clock readings.
- Real file I/O is not modelled. Text-decoding errors on read and failures to write are left out.
- The requests transport is left out. The reply is an abstract value: connection refused, error status, not JSON, JSON that is not an object, or an object of string fields.
- Other request exceptions (timeouts and the like) and non-string `response` values are not modelled.
- The HTTP and JSON faults carry only their exception name as the message.
- `compile`, `exec`, `sys.settrace` dispatch and `traceback.format_exc` are parameters, as the `Interpreter` value.
- The side effects of the executed script are not modelled. This includes a script that installs its own trace function.
- `str()` of a value is abstract. A value renders to a text or raises.
- The dictionary order of captured variables is not modelled, because variables are a map.
- `Tracer.ExecutionTracer.RunScript`: the report's `trace_history` is a copy of the history, not the same list object. Aliasing between the report and the runner is not modelled.
- The prints are left out. So are the `mode` variable ("GENERATOR" or "DEBUGGER"), which is assigned but never read, and `OLLAMA_URL`. `MODEL_NAME` is kept in the payload.
- The last-line print before a repair is kept only for its failure. `"".splitlines()[-1]` raises IndexError, which the model reports as `NoLastLine`.
- Python's regex engine in general is not modelled. Only the one pattern `extract_code` uses has a reference model.
- Floating-point rounding of `time.time()` is not modelled. Times are real numbers.
- `temperature` is carried as the real 0.2.
- Runs are a deterministic function of the source text: the interpreter's outcome depends on the script's text and its module name only. A real run can also depend on the clock, randomness, the files present (the scratch file exists only during the verify run) and the file name handed to `compile`. So a candidate that passed its scratch run can still fail when it later runs as `target.py`; the model's `Passes` means "passed its scratch run", not "still passes".
- Target.Quicksort: elements are integers. For Python values without a total order the source behaves differently: NaN passes none of the three comparisons and is dropped, mixed types raise TypeError, and deep recursion raises RecursionError. The program's only call passes integers.
