/**
 * The scheduled-task row: its activity predicate, its run accounting and the
 * fallbacks of its JSON-typed columns (backend/models/scheduled_task.py).
 * Times are integers on one clock; the JSON decoder is a parameter.
 */
module ScheduledTask {
  import opened Wrappers
  import opened Values

  /** The `status` column: 'active', 'paused', 'completed' or 'error'. */
  datatype Status = Active | Paused | Completed | Error

  /** The `last_run_status` column: 'success' or 'failed'. */
  datatype RunOutcome = Succeeded | Failed

  datatype Task = Task(
    uuid: string,
    name: string,
    description: Option<string>,
    userId: int,
    projectId: Option<int>,
    templateId: Option<string>,
    cronExpression: string,
    timezone: string,
    fieldsConfig: string,
    rowCount: int,
    exportFormat: string,
    tableName: Option<string>,
    outputType: string,
    outputConfig: Option<string>,
    status: Status,
    isEnabled: bool,
    runCount: int,
    successCount: int,
    failCount: int,
    lastRunAt: Option<int>,
    lastRunStatus: Option<RunOutcome>,
    lastError: Option<string>,
    nextRunAt: Option<int>,
    maxRuns: Option<int>,
    expiresAt: Option<int>)

  /** The JSON text decoder (json.loads); None stands for a decoding error. */
  type Decoder = string -> Option<Value>

  /** The `fields` property: the decoded configuration, or [] when the text is empty or does not decode. */
  function Fields(t: Task, decode: Decoder): (v: Value)
    ensures t.fieldsConfig == "" ==> v == List([])
    ensures t.fieldsConfig != "" && decode(t.fieldsConfig).None? ==> v == List([])
    ensures t.fieldsConfig != "" && decode(t.fieldsConfig).Some? ==> v == decode(t.fieldsConfig).value
  {
    if t.fieldsConfig == "" then List([])
    else match decode(t.fieldsConfig)
      case None => List([])
      case Some(v) => v
  }

  /** The `output_settings` property: the decoded configuration, or {} when the column is empty, NULL or does not decode. */
  function OutputSettings(t: Task, decode: Decoder): (v: Value)
    ensures (t.outputConfig.None? || t.outputConfig.value == "") ==> v == Dict([])
    ensures t.outputConfig.Some? && t.outputConfig.value != "" && decode(t.outputConfig.value).None? ==> v == Dict([])
    ensures t.outputConfig.Some? && t.outputConfig.value != "" && decode(t.outputConfig.value).Some? ==>
              v == decode(t.outputConfig.value).value
  {
    if t.outputConfig.None? || t.outputConfig.value == "" then Dict([])
    else match decode(t.outputConfig.value)
      case None => Dict([])
      case Some(v) => v
  }

  /** `max_runs` limits a task only when it is truthy: NULL and 0 both mean unlimited. */
  predicate MaxRunsReached(t: Task) {
    t.maxRuns.Some? && t.maxRuns.value != 0 && t.runCount >= t.maxRuns.value
  }

  predicate Expired(t: Task, now: int) {
    t.expiresAt.Some? && now > t.expiresAt.value
  }

  /** The `is_active` property at time `now`. */
  predicate IsActive(t: Task, now: int) {
    if !t.isEnabled then false
    else if t.status != Active then false
    else if Expired(t, now) then false
    else if MaxRunsReached(t) then false
    else true
  }

  /** A disabled or paused (or completed, or failed) task is never active, whatever the time. */
  lemma NotEnabledOrActiveIsInactive(t: Task, now: int)
    requires !t.isEnabled || t.status != Active
    ensures !IsActive(t, now)
  {
  }

  /**
   * Expiry is strict: at the instant `expires_at` itself an enabled, active,
   * unexhausted task is still active; from the next instant on it is not.
   */
  lemma ActiveUntilExpiry(t: Task, e: int)
    requires t.expiresAt == Some(e)
    ensures IsActive(t, e) <==> t.isEnabled && t.status == Active && !MaxRunsReached(t)
    ensures forall later :: later > e ==> !IsActive(t, later)
  {
  }

  /** Activity only ends with time: a task active now was active at every earlier instant. */
  lemma ActiveEarlier(t: Task, now: int, earlier: int)
    requires earlier <= now && IsActive(t, now)
    ensures IsActive(t, earlier)
  {
  }

  /** A truthy `max_runs` that the run count has reached makes the task inactive, whatever its status. */
  lemma ExhaustedIsInactive(t: Task, now: int)
    requires t.maxRuns.Some? && t.maxRuns.value != 0 && t.runCount >= t.maxRuns.value
    ensures !IsActive(t, now)
  {
  }

  /** With `max_runs` NULL or 0, the run count never affects whether the task is active. */
  lemma UnlimitedRuns(t: Task, now: int, runs: int)
    requires t.maxRuns == None || t.maxRuns == Some(0)
    ensures IsActive(t.(runCount := runs), now) == IsActive(t, now)
  {
  }

  /** `record_run`: one more run at time `now`, counted as a success or a failure. */
  function RecordRun(t: Task, success: bool, error: Option<string>, now: int): (r: Task)
    ensures r.runCount == t.runCount + 1 && r.lastRunAt == Some(now)
    ensures success ==> r.successCount == t.successCount + 1 && r.failCount == t.failCount
                        && r.lastRunStatus == Some(Succeeded) && r.lastError == None
    ensures !success ==> r.failCount == t.failCount + 1 && r.successCount == t.successCount
                         && r.lastRunStatus == Some(Failed) && r.lastError == error
    ensures r.status == (if MaxRunsReached(r) then Completed else t.status)
    ensures r == t.(runCount := r.runCount, successCount := r.successCount, failCount := r.failCount,
                    lastRunAt := r.lastRunAt, lastRunStatus := r.lastRunStatus, lastError := r.lastError,
                    status := r.status)
  {
    var counted := t.(runCount := t.runCount + 1, lastRunAt := Some(now));
    var outcome :=
      if success then counted.(successCount := t.successCount + 1, lastRunStatus := Some(Succeeded), lastError := None)
      else counted.(failCount := t.failCount + 1, lastRunStatus := Some(Failed), lastError := error);
    if MaxRunsReached(outcome) then outcome.(status := Completed) else outcome
  }

  /** Every run is counted once as a success or once as a failure. */
  predicate Balanced(t: Task) {
    t.runCount == t.successCount + t.failCount
  }

  lemma RecordRunKeepsBalance(t: Task, success: bool, error: Option<string>, now: int)
    ensures t.runCount - t.successCount - t.failCount
            == RecordRun(t, success, error, now).runCount - RecordRun(t, success, error, now).successCount
               - RecordRun(t, success, error, now).failCount
    ensures Balanced(t) ==> Balanced(RecordRun(t, success, error, now))
  {
  }

  /** Once the run that reaches a truthy `max_runs` is recorded, the task is completed and inactive at every later time. */
  lemma RecordRunReachingLimit(t: Task, success: bool, error: Option<string>, now: int, later: int)
    requires t.maxRuns.Some? && t.maxRuns.value != 0 && t.runCount + 1 >= t.maxRuns.value
    ensures RecordRun(t, success, error, now).status == Completed
    ensures !IsActive(RecordRun(t, success, error, now), later)
  {
  }

  /** `record_run` never puts a task into the 'error' status and never re-activates one. */
  lemma RecordRunNeverErrors(t: Task, success: bool, error: Option<string>, now: int)
    ensures RecordRun(t, success, error, now).status == Error ==> t.status == Error
    ensures RecordRun(t, success, error, now).status == Active ==> t.status == Active
  {
  }

  /** `find_active_tasks`: enabled tasks with status 'active', in query order. */
  function FindActiveTasks(tasks: seq<Task>): (r: seq<Task>)
    ensures |r| <= |tasks|
    ensures forall i :: 0 <= i < |r| ==> r[i] in tasks && r[i].isEnabled && r[i].status == Active
    ensures forall i :: 0 <= i < |tasks| && tasks[i].isEnabled && tasks[i].status == Active ==> tasks[i] in r
  {
    if tasks == [] then []
    else
      var rest := FindActiveTasks(tasks[1..]);
      if tasks[0].isEnabled && tasks[0].status == Active then [tasks[0]] + rest else rest
  }

  /** The query keeps the order of the table: the tasks of a concatenation are those of each part, in turn. */
  lemma {:induction false} FindActiveTasksConcat(a: seq<Task>, b: seq<Task>)
    ensures FindActiveTasks(a + b) == FindActiveTasks(a) + FindActiveTasks(b)
  {
    if a != [] {
      assert (a + b)[1..] == a[1..] + b;
      FindActiveTasksConcat(a[1..], b);
    } else {
      assert a + b == b;
    }
  }

  /** One task is loaded, once, exactly when it is enabled with status 'active'. */
  lemma FindActiveTasksSingle(t: Task)
    ensures FindActiveTasks([t]) == if t.isEnabled && t.status == Active then [t] else []
  {
    assert [t][1..] == [];
  }

  /** Every task that is active at any time is among those loaded at start-up. */
  lemma ActiveTasksAreFound(tasks: seq<Task>, now: int, i: int)
    requires 0 <= i < |tasks| && IsActive(tasks[i], now)
    ensures tasks[i] in FindActiveTasks(tasks)
  {
  }

  /** The loader does not look at expiry: an expired enabled task is still loaded although it is not active. */
  lemma ExpiredTaskStillFound(t: Task, now: int)
    requires t.isEnabled && t.status == Active && t.expiresAt == Some(now - 1)
    ensures FindActiveTasks([t]) == [t] && !IsActive(t, now)
  {
    assert [t][1..] == [];
  }
}
