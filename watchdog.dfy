/**
 * The command-file edge detector of the gateway (BaseWatchdog in
 * gatewayEMS/src/core/watchdog.py). Each time the command file is read, the two command
 * values are compared with the previously seen pair and main_loop is dispatched only when
 * one of them changed. The file system, the observer thread, the executor and the asyncio
 * loop are replaced by parameters: what the read of the file produced, and how the
 * dispatched main_loop ended.
 */
module Watchdog {
  import opened Wrappers
  import opened PyValue
  import opened Orchestrator

  /** What `json.load` of the command file produced. */
  datatype CommandFile =
    | Unreadable                          // open() failed
    | Undecodable                         // json.JSONDecodeError
    | NotAnObject                         // valid JSON without `.get` (a list, a number, ...)
    | Object(fields: map<string, PyVal>)  // a JSON object

  /** Why construction failed (both are ValueError in the source). */
  datatype InitError = MissingConnectKey | MissingReadstartKey

  /** How `future.result(timeout=30)` on the dispatched main_loop ended. */
  datatype LoopOutcome = Returned(value: PyVal) | Raised | TimedOut

  /** A key name is defined when it is neither None nor empty (`if not self.connect`). */
  predicate KeyDefined(key: Option<string>) {
    key.Some? && key.value != ""
  }

  /** The key checks of `__init__`, connect first. */
  function CheckKeys(connect: Option<string>, readstart: Option<string>): (r: Option<InitError>)
    ensures r.None? <==> KeyDefined(connect) && KeyDefined(readstart)
    ensures !KeyDefined(connect) ==> r == Some(MissingConnectKey)
    ensures KeyDefined(connect) && !KeyDefined(readstart) ==> r == Some(MissingReadstartKey)
  {
    if !KeyDefined(connect) then Some(MissingConnectKey)
    else if !KeyDefined(readstart) then Some(MissingReadstartKey)
    else None
  }

  /** `json_data.get(key, False)`. */
  function GetOrFalse(fields: map<string, PyVal>, key: string): PyVal {
    if key in fields then fields[key] else PyBool(false)
  }

  /** The pair of command values the file yields, or None when the read raised. */
  function ReadCommand(file: CommandFile, connectKey: string, readstartKey: string): (r: Option<(PyVal, PyVal)>)
    ensures r.None? <==> !file.Object?
    ensures file.Object? && connectKey !in file.fields ==> r.value.0 == PyBool(false)
    ensures file.Object? && readstartKey !in file.fields ==> r.value.1 == PyBool(false)
    ensures file.Object? && connectKey in file.fields ==> r.value.0 == file.fields[connectKey]
    ensures file.Object? && readstartKey in file.fields ==> r.value.1 == file.fields[readstartKey]
  {
    match file
    case Object(fields) => Some((GetOrFalse(fields, connectKey), GetOrFalse(fields, readstartKey)))
    case _ => None
  }

  /** Either value differs (Python `!=`) from the stored previous pair. */
  predicate Changed(prev: (PyVal, PyVal), current: (PyVal, PyVal)) {
    !PyEq(current.0, prev.0) || !PyEq(current.1, prev.1)
  }

  /**
   * One `_check_variables_and_execute`: the new previous pair and the pair submitted to
   * main_loop, if any.
   */
  function Detect(prev: (PyVal, PyVal), file: CommandFile, connectKey: string, readstartKey: string)
    : (r: ((PyVal, PyVal), Option<(PyVal, PyVal)>))
    ensures r.1.Some? <==> file.Object? && Changed(prev, ReadCommand(file, connectKey, readstartKey).value)
    ensures r.1.Some? ==> r.0 == r.1.value == ReadCommand(file, connectKey, readstartKey).value
    ensures r.1.None? ==> r.0 == prev
  {
    match ReadCommand(file, connectKey, readstartKey)
    case None => (prev, None)
    case Some(current) =>
      if Changed(prev, current) then (current, Some(current)) else (prev, None)
  }

  /** The pair the detector starts from: (None, None). */
  const InitialPrev: (PyVal, PyVal) := (PyNone, PyNone)

  /** An unreadable, undecodable or non-object file submits nothing and keeps the stored pair. */
  lemma MalformedSubmitsNothing(prev: (PyVal, PyVal), file: CommandFile, connectKey: string, readstartKey: string)
    requires !file.Object?
    ensures Detect(prev, file, connectKey, readstartKey) == (prev, None)
  {
  }

  /**
   * The first read submits exactly when the file is an object and at least one of the two
   * values is not JSON null: a missing key reads as False, which differs from None, so a
   * file lacking either key always triggers the first dispatch.
   */
  lemma FirstReadSubmits(file: CommandFile, connectKey: string, readstartKey: string)
    requires file.Object?
    ensures Detect(InitialPrev, file, connectKey, readstartKey).1.Some?
      <==> GetOrFalse(file.fields, connectKey) != PyNone || GetOrFalse(file.fields, readstartKey) != PyNone
    ensures connectKey !in file.fields ==> Detect(InitialPrev, file, connectKey, readstartKey).1.Some?
  {
  }

  /** Reading the same file again right after submits nothing. */
  lemma RereadSubmitsNothing(prev: (PyVal, PyVal), file: CommandFile, connectKey: string, readstartKey: string)
    ensures var next := Detect(prev, file, connectKey, readstartKey).0;
      Detect(next, file, connectKey, readstartKey) == (next, None)
  {
    var next := Detect(prev, file, connectKey, readstartKey).0;
    if file.Object? {
      var current := ReadCommand(file, connectKey, readstartKey).value;
      if Changed(prev, current) {
        PyEqReflexive(current.0);
        PyEqReflexive(current.1);
      }
    }
  }

  /**
   * Python's `!=` identifies True with 1: rewriting `true` as `1` in the file is no change
   * and dispatches nothing.
   */
  lemma TrueToOneIsNoChange(connectKey: string, readstartKey: string)
    requires connectKey != readstartKey
    ensures var before := Object(map[connectKey := PyBool(true), readstartKey := PyBool(false)]);
      var after := Object(map[connectKey := PyInt(1), readstartKey := PyInt(0)]);
      var prev := Detect(InitialPrev, before, connectKey, readstartKey).0;
      Detect(prev, after, connectKey, readstartKey) == (prev, None)
    ensures var before := Object(map[connectKey := PyBool(true), readstartKey := PyBool(false)]);
      var after := Object(map[connectKey := PyFloat(1.0), readstartKey := PyFloat(0.0)]);
      var prev := Detect(InitialPrev, before, connectKey, readstartKey).0;
      Detect(prev, after, connectKey, readstartKey) == (prev, None)
  {
  }

  /** `_run_async_main_loop`: main_loop's value, or None when it raised or ran out of time. */
  function RunAsyncMainLoop(outcome: LoopOutcome): (r: PyVal)
    ensures !outcome.Returned? ==> r == PyNone
    ensures outcome.Returned? ==> r == outcome.value
  {
    if outcome.Returned? then outcome.value else PyNone
  }

  /** A dispatched transition: the pair main_loop was called with and what the future returned. */
  datatype Submission = Submission(connect: PyVal, readstart: PyVal, result: PyVal)

  /**
   * The watchdog with its orchestrator. The dispatch to main_loop is a synchronous call on
   * `task`. A timed-out main_loop keeps running on its loop (the wait does not cancel it), so
   * its transition still happens; a raised dispatch performs none.
   */
  class BaseWatchdog {
    const connectKey: string
    const readstartKey: string
    const filePath: string
    const task: PrintTaskWatchdog
    var prevConnect: PyVal
    var prevReadstart: PyVal
    /** Every transition submitted so far, oldest first; the last is `result_future`. */
    var submitted: seq<Submission>

    function Prev(): (PyVal, PyVal)
      reads this
    {
      (prevConnect, prevReadstart)
    }

    constructor (connectKey: string, readstartKey: string, filePath: string, task: PrintTaskWatchdog)
      requires CheckKeys(Some(connectKey), Some(readstartKey)).None?
      ensures this.connectKey == connectKey && this.readstartKey == readstartKey
      ensures this.filePath == filePath && this.task == task
      ensures Prev() == InitialPrev && submitted == []
    {
      this.connectKey := connectKey;
      this.readstartKey := readstartKey;
      this.filePath := filePath;
      this.task := task;
      prevConnect := PyNone;
      prevReadstart := PyNone;
      submitted := [];
    }

    /**
     * What one `_check_variables_and_execute` leaves behind: the stored pair as Detect gives it,
     * and, when Detect submits a pair, that submission appended and main_loop's step applied to
     * the orchestrator (none when the dispatch raised); otherwise nothing submitted or stepped.
     */
    twostate predicate CheckedAndExecuted(file: CommandFile, outcome: LoopOutcome)
      reads this, task
    {
      var detected := Detect(old(Prev()), file, connectKey, readstartKey);
      var sent := detected.1;
      Prev() == detected.0
      && if sent.None? then
           submitted == old(submitted) && task.Current() == old(task.Current()) && task.effects == old(task.effects)
         else
           var step := MainLoopStep(old(task.Current()), sent.value.0, sent.value.1);
           submitted == old(submitted) + [Submission(sent.value.0, sent.value.1, RunAsyncMainLoop(outcome))]
           && task.Current() == (if outcome.Raised? then old(task.Current()) else step.0)
           && task.effects == old(task.effects) + (if outcome.Raised? then [] else step.1)
    }

    /** `_check_variables_and_execute`, with the file's content and the dispatch's outcome given. */
    method CheckVariablesAndExecute(file: CommandFile, outcome: LoopOutcome)
      modifies this, task
      ensures CheckedAndExecuted(file, outcome)
    {
      var read := ReadCommand(file, connectKey, readstartKey);
      if read.Some? {
        var current := read.value;
        if Changed(Prev(), current) {
          prevConnect := current.0;
          prevReadstart := current.1;
          if !outcome.Raised? {
            task.MainLoop(current.0, current.1);
          }
          submitted := submitted + [Submission(current.0, current.1, RunAsyncMainLoop(outcome))];
        }
      }
    }

    /** `on_modified`: only an event for the command file itself triggers a check. */
    method OnModified(eventPath: string, file: CommandFile, outcome: LoopOutcome)
      modifies this, task
      ensures eventPath != filePath ==>
        Prev() == old(Prev()) && submitted == old(submitted)
        && task.Current() == old(task.Current()) && task.effects == old(task.effects)
      ensures eventPath == filePath ==> CheckedAndExecuted(file, outcome)
    {
      if eventPath == filePath {
        CheckVariablesAndExecute(file, outcome);
      }
    }

    /** `start`: the initial check (observer scheduling is not modelled). */
    method Start(file: CommandFile, outcome: LoopOutcome)
      modifies this, task
      ensures CheckedAndExecuted(file, outcome)
    {
      CheckVariablesAndExecute(file, outcome);
    }
  }

  /** `__init__`: fails with the first missing key, otherwise a watchdog with (None, None) stored. */
  method NewWatchdog(connect: Option<string>, readstart: Option<string>, filePath: string, task: PrintTaskWatchdog)
    returns (w: Option<BaseWatchdog>, error: Option<InitError>)
    ensures error == CheckKeys(connect, readstart)
    ensures w.Some? <==> error.None?
    ensures w.Some? ==> fresh(w.value) && w.value.Prev() == InitialPrev && w.value.submitted == []
    ensures w.Some? ==> w.value.connectKey == connect.value && w.value.readstartKey == readstart.value
  {
    error := CheckKeys(connect, readstart);
    if error.None? {
      var created := new BaseWatchdog(connect.value, readstart.value, filePath, task);
      w := Some(created);
    } else {
      w := None;
    }
  }
}
