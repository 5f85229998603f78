/**
 * The recurring-task scheduler service (backend/services/scheduler_service.py):
 * the task store keyed by uuid, the job registry keyed `task_<uuid>`, the
 * execution log, the lifecycle operations, the execution pipeline, output
 * classification, statistics and the cron helpers.
 *
 * croniter and APScheduler are one abstract `Cron`: which expressions
 * croniter parses, which five-field expressions and time zones APScheduler's
 * `CronTrigger.from_crontab` accepts, and the next fire time after a moment
 * (always later than that moment), which both libraries compute alike.
 * Clock readings, the generated values, the JSON size of the output and the
 * webhook's HTTP outcome are parameters.
 */
module Scheduler {
  import opened Wrappers
  import opened Values
  import opened Text
  import opened ScheduledTask
  import GeneratorService
  import MockGenerator

  datatype CronLib = CronLib(valid: string -> bool, next: (string, int) -> int, trigger: (string, string) -> bool)

  /** The one promise the model relies on: for a parseable expression the next fire time is after `now`. */
  ghost predicate NextIsLater(c: CronLib) {
    forall e: string, now: int :: c.valid(e) ==> c.next(e, now) > now
  }

  type Cron = c: CronLib | NextIsLater(c) witness CronLib(e => false, (e, n) => n + 1, (e, z) => false)

  /**
   * `CronTrigger.from_crontab(expression, timezone=...)` succeeds: the
   * expression splits into exactly five fields, and the library accepts those
   * fields and the time zone name.
   */
  predicate TriggerBuilds(cron: Cron, expression: string, timezone: string) {
    |Words(expression)| == 5 && cron.trigger(expression, timezone)
  }

  /** A nickname such as "@daily", which croniter reads, never builds a trigger. */
  lemma NicknameBuildsNoTrigger(cron: Cron, timezone: string)
    ensures !TriggerBuilds(cron, "@daily", timezone)
  {
    assert Word("@daily") == "@daily";
    assert "@daily"[|"@daily"|..] == [];
    assert Words("@daily") == ["@daily"];
  }

  /** Neither does an expression of six fields (a seconds field), whatever the library accepts. */
  lemma SixFieldsBuildNoTrigger(cron: Cron, expression: string, timezone: string)
    requires |Words(expression)| == 6
    ensures !TriggerBuilds(cron, expression, timezone)
  {
  }

  /** json.dumps. */
  type Encoder = Value -> string

  const InvalidCron := "无效的 Cron 表达式"
  const TaskMissing := "任务不存在"

  function JobId(u: string): string { "task_" + u }


  datatype LogStatus = Running | Success | Failed

  datatype ExecutionLog = ExecutionLog(
    taskUuid: string,
    startedAt: int,
    finishedAt: Option<int>,
    durationMs: Option<int>,
    status: LogStatus,
    rowsGenerated: Option<int>,
    dataSizeBytes: Option<int>,
    errorMessage: Option<string>,
    outputStatus: Option<string>,
    outputMessage: Option<string>)

  /** What `requests.post` did: a response with a status code, or an exception with its message. */
  datatype HttpOutcome = Response(statusCode: int) | Raised(message: string)

  /** The headers `_send_webhook` sends: `config.get('headers', {})`. */
  function Headers(config: Value): Value
    requires config.Dict?
  {
    GetOr(config.entries, "headers", Dict([]))
  }

  /** The TypeError message of `v['Content-Type'] = ...` on a value that is not a dict. */
  function ItemAssignError(v: Value): string {
    match v
    case Null => "'NoneType' object does not support item assignment"
    case Bool(_) => "'bool' object does not support item assignment"
    case Int(_) => "'int' object does not support item assignment"
    case Str(_) => "'str' object does not support item assignment"
    case List(_) => "list indices must be integers or slices, not str"
    case Dict(_) => ""
  }

  /**
   * `_send_webhook`. Err is the AttributeError that `config.get` raises when
   * the output settings are not a dict; it escapes to the execution pipeline.
   * Headers that are not a dict make the `Content-Type` assignment raise a
   * TypeError, which is caught and reported before anything is posted.
   */
  function SendWebhook(config: Value, post: HttpOutcome): (r: Result<(string, string)>)
    ensures r.Err? <==> !config.Dict?
    ensures r.Ok? ==> r.value.0 == "success" || r.value.0 == "failed"
    ensures r.Ok? && r.value.0 == "success" <==>
              config.Dict? && Truthy(GetOr(config.entries, "url", Null)) && Headers(config).Dict?
              && post.Response? && post.statusCode < 400
    ensures config.Dict? && Truthy(GetOr(config.entries, "url", Null)) && !Headers(config).Dict? ==>
              r == Ok(("failed", "Webhook 发送失败: " + ItemAssignError(Headers(config))))
  {
    if !config.Dict? then Err(NoGet(config))
    else if !Truthy(GetOr(config.entries, "url", Null)) then Ok(("failed", "Webhook URL 未配置"))
    else if !Headers(config).Dict? then Ok(("failed", "Webhook 发送失败: " + ItemAssignError(Headers(config))))
    else match post
      case Response(code) =>
        if code < 400 then Ok(("success", "Webhook 发送成功: " + IntToDecimal(code)))
        else Ok(("failed", "Webhook 返回错误: " + IntToDecimal(code)))
      case Raised(m) => Ok(("failed", "Webhook 发送失败: " + m))
  }

  /** `{"url": "u", "headers": null}` fails without posting, whatever the server would have answered. */
  lemma NullHeadersFail(post: HttpOutcome)
    ensures SendWebhook(Dict([("url", Str("u")), ("headers", Null)]), post)
            == Ok(("failed", "Webhook 发送失败: " + ItemAssignError(Null)))
  {
    var config := Dict([("url", Str("u")), ("headers", Null)]);
    assert config.entries[1..] == [("headers", Null)];
    assert Get(config.entries, "url") == Some(Str("u")) && Truthy(Str("u"));
    assert Get(config.entries, "headers") == Some(Null);
  }

  /** `_handle_output`: only 'webhook' sends anything; 'none' and unknown types are skipped. */
  function HandleOutput(outputType: string, settings: Value, post: HttpOutcome): (r: Result<(string, string)>)
    ensures outputType != "webhook" ==> r.Ok? && r.value.0 == "skipped"
    ensures outputType == "webhook" ==> (r.Err? <==> !settings.Dict?)
    ensures r.Ok? && r.value.0 == "success" ==> outputType == "webhook" && post.Response? && post.statusCode < 400
  {
    if outputType == "none" then Ok(("skipped", "无输出配置"))
    else if outputType == "webhook" then SendWebhook(settings, post)
    else Ok(("skipped", "不支持的输出类型: " + outputType))
  }

  /** croniter's recomputation of `next_run_at` from `now`; an unparseable expression leaves it as it was. */
  function Rescheduled(t: Task, cron: Cron, now: int): (r: Task)
    ensures r == t.(nextRunAt := r.nextRunAt)
    ensures cron.valid(t.cronExpression) ==> r.nextRunAt.Some? && r.nextRunAt.value > now
    ensures !cron.valid(t.cronExpression) ==> r.nextRunAt == t.nextRunAt
  {
    if cron.valid(t.cronExpression) then t.(nextRunAt := Some(cron.next(t.cronExpression, now))) else t
  }

  /** What `create_task` passes on from its caller. */
  datatype TaskSettings = TaskSettings(
    name: string,
    cronExpression: string,
    fields: Value,
    rowCount: int,
    description: Option<string>,
    projectId: Option<int>,
    templateId: Option<string>,
    exportFormat: string,
    tableName: Option<string>,
    outputType: string,
    outputConfig: Value,
    timezone: string,
    maxRuns: Option<int>,
    expiresAt: Option<int>)

  /** The row `create_task` saves for a parseable expression. */
  function NewTask(u: string, userId: int, s: TaskSettings, encode: Encoder, cron: Cron, now: int): (t: Task)
    requires cron.valid(s.cronExpression)
    ensures t.uuid == u && t.userId == userId && t.cronExpression == s.cronExpression
    ensures t.status == Active && t.isEnabled && Balanced(t) && t.runCount == 0
    ensures t.nextRunAt.Some? && t.nextRunAt.value > now
    ensures t.outputConfig.Some? <==> Truthy(s.outputConfig)
  {
    Task(u, s.name, s.description, userId, s.projectId, s.templateId, s.cronExpression, s.timezone,
         encode(s.fields), s.rowCount, s.exportFormat, s.tableName, s.outputType,
         if Truthy(s.outputConfig) then Some(encode(s.outputConfig)) else None,
         Active, true, 0, 0, 0, None, None, None,
         Some(cron.next(s.cronExpression, now)), s.maxRuns, s.expiresAt)
  }

  /** A new task is active at once unless it is already expired or its `max_runs` is negative. */
  lemma NewTaskActivity(u: string, userId: int, s: TaskSettings, encode: Encoder, cron: Cron, now: int)
    requires cron.valid(s.cronExpression)
    ensures IsActive(NewTask(u, userId, s, encode, cron, now), now) <==>
              !(s.expiresAt.Some? && now > s.expiresAt.value) && !(s.maxRuns.Some? && s.maxRuns.value < 0)
  {
  }

  /** The keyword arguments `update_task` received: None means the key was absent. */
  datatype TaskChanges = TaskChanges(
    name: Option<string>,
    description: Option<Option<string>>,
    cronExpression: Option<string>,
    timezone: Option<string>,
    fields: Option<Value>,
    rowCount: Option<int>,
    exportFormat: Option<string>,
    tableName: Option<Option<string>>,
    outputType: Option<string>,
    outputConfig: Option<Value>,
    maxRuns: Option<Option<int>>,
    expiresAt: Option<Option<int>>)

  function Pick<T>(o: Option<T>, old_: T): T {
    if o.Some? then o.value else old_
  }

  /** The assignments of `update_task`; the output setter serialises whatever it is given. */
  function ApplyChanges(t: Task, c: TaskChanges, encode: Encoder): Task {
    t.(name := Pick(c.name, t.name),
       description := Pick(c.description, t.description),
       cronExpression := Pick(c.cronExpression, t.cronExpression),
       timezone := Pick(c.timezone, t.timezone),
       fieldsConfig := if c.fields.Some? then encode(c.fields.value) else t.fieldsConfig,
       rowCount := Pick(c.rowCount, t.rowCount),
       exportFormat := Pick(c.exportFormat, t.exportFormat),
       tableName := Pick(c.tableName, t.tableName),
       outputType := Pick(c.outputType, t.outputType),
       outputConfig := if c.outputConfig.Some? then Some(encode(c.outputConfig.value)) else t.outputConfig,
       maxRuns := Pick(c.maxRuns, t.maxRuns),
       expiresAt := Pick(c.expiresAt, t.expiresAt))
  }

  /** An update never touches identity, ownership, status, the enabled flag or the run accounting. */
  lemma ApplyChangesKeepsRunState(t: Task, c: TaskChanges, encode: Encoder)
    ensures var r := ApplyChanges(t, c, encode);
      r.uuid == t.uuid && r.userId == t.userId && r.status == t.status && r.isEnabled == t.isEnabled
      && r.runCount == t.runCount && r.successCount == t.successCount && r.failCount == t.failCount
      && r.lastRunAt == t.lastRunAt && r.lastRunStatus == t.lastRunStatus && r.lastError == t.lastError
  {
  }

  /** Applying the same keyword arguments twice is the same as applying them once, and no arguments change nothing. */
  lemma ApplyChangesIdempotent(t: Task, c: TaskChanges, encode: Encoder)
    ensures ApplyChanges(ApplyChanges(t, c, encode), c, encode) == ApplyChanges(t, c, encode)
    ensures ApplyChanges(t, TaskChanges(None, None, None, None, None, None, None, None, None, None, None, None), encode) == t
  {
  }

  /**
   * `data_generator_service.generate_data(task.fields, task.row_count)`, with
   * `str(e)` of what it raises; `unmodelled` is the outcome for fields whose
   * column names the model cannot represent.
   */
  function TaskData(t: Task, decode: Decoder, gen: MockGenerator.ValueSource,
                    unmodelled: Result<seq<Record>>): Result<seq<Record>> {
    if GeneratorService.Representable(Fields(t, decode))
    then GeneratorService.GenerateFromValue(Fields(t, decode), t.rowCount, gen)
    else unmodelled
  }

  /** The log row and the task row after `_do_execute_task` ran an active task. */
  function Execution(t: Task, startedAt: int, finishedAt: int, durationMs: int,
                     generated: Result<seq<Record>>, dataSize: nat, post: HttpOutcome,
                     cron: Cron, decode: Decoder): (ExecutionLog, Task)
  {
    var started := ExecutionLog(t.uuid, startedAt, None, None, Running, None, None, None, None, None);
    var outcome :=
      match generated
      case Err(m) => Err(m)
      case Ok(rows) =>
        match HandleOutput(t.outputType, OutputSettings(t, decode), post)
        case Err(m) => Err(m)
        case Ok(out) => Ok((rows, out));
    match outcome
    case Ok(done) =>
      var (rows, out) := done;
      (started.(finishedAt := Some(finishedAt), durationMs := Some(durationMs), status := Success,
                rowsGenerated := Some(|rows|), dataSizeBytes := Some(dataSize),
                outputStatus := Some(out.0), outputMessage := Some(out.1)),
       Rescheduled(RecordRun(t, true, None, finishedAt), cron, finishedAt))
    case Err(m) =>
      (started.(finishedAt := Some(finishedAt), durationMs := Some(durationMs), status := LogStatus.Failed,
                errorMessage := Some(m)),
       RecordRun(t, false, Some(m), finishedAt))
  }

  /** A run either succeeds in full or fails in full, and the log agrees with the counters. */
  lemma ExecutionOutcome(t: Task, startedAt: int, finishedAt: int, durationMs: int,
                         generated: Result<seq<Record>>, dataSize: nat, post: HttpOutcome,
                         cron: Cron, decode: Decoder)
    ensures var (log, r) := Execution(t, startedAt, finishedAt, durationMs, generated, dataSize, post, cron, decode);
      log.taskUuid == t.uuid && log.status != Running
      && r.uuid == t.uuid && r.userId == t.userId && r.cronExpression == t.cronExpression
      && (Balanced(t) ==> Balanced(r))
      && r.runCount == t.runCount + 1
      && (log.status == Success <==> r.successCount == t.successCount + 1)
      && (log.status == LogStatus.Failed <==> r.failCount == t.failCount + 1)
      && (log.status == Success <==> generated.Ok? && HandleOutput(t.outputType, OutputSettings(t, decode), post).Ok?)
  {
  }

  /** On success the log counts the generated rows and the next run is scheduled after the run finished. */
  lemma SuccessfulExecution(t: Task, startedAt: int, finishedAt: int, durationMs: int,
                            rows: seq<Record>, dataSize: nat, post: HttpOutcome, cron: Cron, decode: Decoder)
    requires HandleOutput(t.outputType, OutputSettings(t, decode), post).Ok?
    requires cron.valid(t.cronExpression)
    ensures var (log, r) := Execution(t, startedAt, finishedAt, durationMs, Ok(rows), dataSize, post, cron, decode);
      log.status == Success && log.rowsGenerated == Some(|rows|) && log.errorMessage == None
      && log.outputStatus == Some(HandleOutput(t.outputType, OutputSettings(t, decode), post).value.0)
      && r.lastRunStatus == Some(Succeeded) && r.nextRunAt.Some? && r.nextRunAt.value > finishedAt
  {
  }

  /**
   * A successful run of a task whose fields the model represents logs the
   * task's row count (none for a count of zero or less).
   */
  lemma SuccessLogsRowCount(t: Task, startedAt: int, finishedAt: int, durationMs: int,
                            gen: MockGenerator.ValueSource, unmodelled: Result<seq<Record>>,
                            dataSize: nat, post: HttpOutcome, cron: Cron, decode: Decoder)
    requires GeneratorService.Representable(Fields(t, decode))
    ensures var (log, r) := Execution(t, startedAt, finishedAt, durationMs, TaskData(t, decode, gen, unmodelled),
                                      dataSize, post, cron, decode);
            log.status == Success ==> log.rowsGenerated == Some(if t.rowCount > 0 then t.rowCount else 0)
  {
  }

  /** A failed run records the error on both rows and leaves `next_run_at` as it was. */
  lemma FailedExecution(t: Task, startedAt: int, finishedAt: int, durationMs: int,
                        message: string, dataSize: nat, post: HttpOutcome, cron: Cron, decode: Decoder)
    ensures var (log, r) := Execution(t, startedAt, finishedAt, durationMs, Err(message), dataSize, post, cron, decode);
      log.status == LogStatus.Failed && log.errorMessage == Some(message) && log.rowsGenerated == None
      && r.lastError == Some(message) && r.nextRunAt == t.nextRunAt
  {
  }

  /** The number of log rows written for task `u`. */
  function CountLogs(logs: seq<ExecutionLog>, u: string): nat {
    if logs == [] then 0
    else CountLogs(logs[..|logs| - 1], u) + (if logs[|logs| - 1].taskUuid == u then 1 else 0)
  }

  lemma CountLogsAppend(logs: seq<ExecutionLog>, log: ExecutionLog, u: string)
    ensures CountLogs(logs + [log], u) == CountLogs(logs, u) + (if log.taskUuid == u then 1 else 0)
  {
    assert (logs + [log])[..|logs|] == logs;
  }

  /** A task no log row refers to has no log rows. */
  lemma {:induction false} CountLogsAbsent(logs: seq<ExecutionLog>, u: string)
    requires forall i :: 0 <= i < |logs| ==> logs[i].taskUuid != u
    ensures CountLogs(logs, u) == 0
  {
    if logs != [] {
      CountLogsAbsent(logs[..|logs| - 1], u);
    }
  }

  /** The log rows left after deleting those of task `u`, in order. */
  function LogsWithout(logs: seq<ExecutionLog>, u: string): (r: seq<ExecutionLog>)
    ensures forall i :: 0 <= i < |r| ==> r[i].taskUuid != u && r[i] in logs
  {
    if logs == [] then []
    else
      var rest := LogsWithout(logs[..|logs| - 1], u);
      if logs[|logs| - 1].taskUuid == u then rest else rest + [logs[|logs| - 1]]
  }

  /** Deleting one task's logs leaves every other task's log count as it was. */
  lemma {:induction false} CountLogsWithout(logs: seq<ExecutionLog>, u: string, v: string)
    ensures CountLogs(LogsWithout(logs, u), v) == if v == u then 0 else CountLogs(logs, v)
  {
    if logs != [] {
      var init := logs[..|logs| - 1];
      var last := logs[|logs| - 1];
      CountLogsWithout(init, u, v);
      if last.taskUuid != u {
        CountLogsAppend(LogsWithout(init, u), last, v);
      }
    }
  }

  /**
   * Rows are stored under their own uuid, every run is counted as a success
   * or a failure and has exactly one log row, every log row and every job
   * belongs to a stored task, and no job exists without a scheduler.
   */
  ghost predicate StoreValid(tasks: map<string, Task>, jobs: map<string, string>, logs: seq<ExecutionLog>, running: bool, cron: Cron) {
    (forall u :: u in tasks ==>
       tasks[u].uuid == u && Balanced(tasks[u]) && CountLogs(logs, u) == tasks[u].runCount
       && cron.valid(tasks[u].cronExpression))
    && (forall i :: 0 <= i < |logs| ==> logs[i].taskUuid in tasks)
    && (forall j :: j in jobs ==> jobs[j] in tasks && j == JobId(jobs[j]))
    && (!running ==> jobs == map[])
  }

  /** Rewriting a stored row keeps the store valid when the row keeps its uuid, its balance and its run count. */
  lemma ReplaceKeepsValid(tasks: map<string, Task>, jobs: map<string, string>, logs: seq<ExecutionLog>, running: bool, cron: Cron,
                          u: string, t: Task)
    requires StoreValid(tasks, jobs, logs, running, cron) && u in tasks
    requires t.uuid == u && Balanced(t) && t.runCount == tasks[u].runCount && cron.valid(t.cronExpression)
    ensures StoreValid(tasks[u := t], jobs, logs, running, cron)
  {
    assert tasks[u := t].Keys == tasks.Keys;
  }

  /** Recording one run with its log row keeps the store valid. */
  lemma RecordKeepsValid(tasks: map<string, Task>, jobs: map<string, string>, logs: seq<ExecutionLog>, running: bool, cron: Cron,
                         u: string, t: Task, log: ExecutionLog)
    requires StoreValid(tasks, jobs, logs, running, cron) && u in tasks
    requires t.uuid == u && Balanced(t) && t.runCount == tasks[u].runCount + 1 && cron.valid(t.cronExpression)
    requires log.taskUuid == u
    ensures StoreValid(tasks[u := t], jobs, logs + [log], running, cron)
  {
    var tasks' := tasks[u := t];
    assert tasks'.Keys == tasks.Keys;
    forall v | v in tasks' ensures CountLogs(logs + [log], v) == tasks'[v].runCount {
      CountLogsAppend(logs, log, v);
    }
  }

  /** Recomputing the next run twice from the same moment gives the same row. */
  lemma RescheduledSettles(t: Task, cron: Cron, now: int)
    ensures Rescheduled(Rescheduled(t, cron, now), cron, now) == Rescheduled(t, cron, now)
  {
  }

  class SchedulerService {
    /** The task table, by uuid. */
    var tasks: map<string, Task>
    /** The jobs registered with the background scheduler: job id to the uuid the job runs. */
    var jobs: map<string, string>
    /** The execution log table, in insertion order. */
    var logs: seq<ExecutionLog>
    /** Whether the background scheduler was started (`self._scheduler` is set). */
    const running: bool
    /** The cron library the scheduler and the service both use. */
    const cron: Cron

    /**
     * Rows are stored under their own uuid, every run is counted as a success
     * or a failure and has exactly one log row, every log row and every job
     * belongs to a stored task, and no job exists without a scheduler.
     */
    ghost predicate Valid()
      reads this
    {
      StoreValid(tasks, jobs, logs, running, cron)
    }

    constructor(running: bool, cron: Cron)
      ensures Valid() && this.running == running && this.cron == cron
      ensures tasks == map[] && jobs == map[] && logs == []
    {
      this.running := running;
      this.cron := cron;
      tasks := map[];
      jobs := map[];
      logs := [];
    }

    /**
     * `_add_job`: registers the job and takes the trigger's next fire time;
     * nothing without a scheduler, and nothing when the trigger cannot be
     * built (the exception is caught and only printed).
     */
    method AddJob(u: string, now: int)
      requires Valid() && u in tasks
      modifies this
      ensures Valid() && logs == old(logs)
      ensures running && TriggerBuilds(cron, old(tasks)[u].cronExpression, old(tasks)[u].timezone) ==>
                jobs == old(jobs)[JobId(u) := u] && tasks == old(tasks)[u := Rescheduled(old(tasks)[u], cron, now)]
      ensures !running || !TriggerBuilds(cron, old(tasks)[u].cronExpression, old(tasks)[u].timezone) ==>
                jobs == old(jobs) && tasks == old(tasks)
    {
      if running && TriggerBuilds(cron, tasks[u].cronExpression, tasks[u].timezone) {
        ReplaceKeepsValid(tasks, jobs, logs, running, cron, u, Rescheduled(tasks[u], cron, now));
        jobs := jobs[JobId(u) := u];
        tasks := tasks[u := Rescheduled(tasks[u], cron, now)];
      }
    }

    /** `_remove_job`: a missing job is ignored. */
    method RemoveJob(u: string)
      requires Valid()
      modifies this`jobs
      ensures Valid()
      ensures jobs == if running then old(jobs) - {JobId(u)} else old(jobs)
    {
      if running {
        jobs := jobs - {JobId(u)};
      }
    }

    /** Writes back a row that keeps its uuid, its balance, its run count and a parseable expression. */
    method StoreTask(u: string, t: Task)
      requires Valid() && u in tasks
      requires t.uuid == u && Balanced(t) && t.runCount == tasks[u].runCount && cron.valid(t.cronExpression)
      modifies this`tasks
      ensures Valid() && tasks == old(tasks)[u := t]
    {
      ReplaceKeepsValid(tasks, jobs, logs, running, cron, u, t);
      tasks := tasks[u := t];
    }

    /** Adds a row that has not run yet under a fresh uuid. */
    method InsertTask(u: string, t: Task)
      requires Valid() && u !in tasks
      requires t.uuid == u && Balanced(t) && t.runCount == 0 && cron.valid(t.cronExpression)
      modifies this`tasks
      ensures Valid() && tasks == old(tasks)[u := t]
    {
      forall i | 0 <= i < |logs| ensures logs[i].taskUuid != u { }
      CountLogsAbsent(logs, u);
      tasks := tasks[u := t];
    }

    /** `create_task`. `newUuid` is the uuid the new row receives. */
    method CreateTask(userId: int, s: TaskSettings, hasApp: bool, newUuid: string, now: int, encode: Encoder)
      returns (r: Result<Task>)
      requires Valid() && newUuid !in tasks
      modifies this
      ensures Valid() && logs == old(logs)
      ensures !cron.valid(s.cronExpression) ==> r == Err(InvalidCron) && tasks == old(tasks) && jobs == old(jobs)
      ensures cron.valid(s.cronExpression) ==>
                r == Ok(NewTask(newUuid, userId, s, encode, cron, now))
                && tasks == old(tasks)[newUuid := r.value]
                && jobs == (if hasApp && running && TriggerBuilds(cron, s.cronExpression, s.timezone)
                            then old(jobs)[JobId(newUuid) := newUuid] else old(jobs))
    {
      if !cron.valid(s.cronExpression) {
        return Err(InvalidCron);
      }
      var t := NewTask(newUuid, userId, s, encode, cron, now);
      InsertTask(newUuid, t);
      if hasApp {
        assert Rescheduled(t, cron, now) == t;
        AddJob(newUuid, now);
      }
      r := Ok(t);
    }

    /** `update_task`: the guards, then the present keyword arguments, a recomputed next run and the job re-armed or removed. */
    method UpdateTask(taskId: string, userId: int, hasApp: bool, c: TaskChanges, now: int, encode: Encoder)
      returns (r: Result<Task>)
      requires Valid()
      modifies this
      ensures Valid() && logs == old(logs)
      ensures taskId !in old(tasks) ==> r == Err(TaskMissing) && tasks == old(tasks) && jobs == old(jobs)
      ensures taskId in old(tasks) && old(tasks)[taskId].userId != userId ==>
                r == Err("无权修改此任务") && tasks == old(tasks) && jobs == old(jobs)
      ensures taskId in old(tasks) && old(tasks)[taskId].userId == userId
              && c.cronExpression.Some? && !cron.valid(c.cronExpression.value) ==>
                r == Err(InvalidCron) && tasks == old(tasks) && jobs == old(jobs)
      ensures taskId in old(tasks) && old(tasks)[taskId].userId == userId
              && !(c.cronExpression.Some? && !cron.valid(c.cronExpression.value)) ==>
                var t := Rescheduled(ApplyChanges(old(tasks)[taskId], c, encode), cron, now);
                r == Ok(t) && tasks == old(tasks)[taskId := t]
                && jobs == (if !running then old(jobs)
                            else if IsActive(t, now) && hasApp then
                              (if TriggerBuilds(cron, t.cronExpression, t.timezone)
                               then old(jobs)[JobId(taskId) := taskId] else old(jobs))
                            else old(jobs) - {JobId(taskId)})
    {
      if taskId !in tasks {
        return Err(TaskMissing);
      }
      var task := tasks[taskId];
      if task.userId != userId {
        return Err("无权修改此任务");
      }
      if c.cronExpression.Some? && !cron.valid(c.cronExpression.value) {
        return Err(InvalidCron);
      }
      ApplyChangesKeepsRunState(task, c, encode);
      var applied := ApplyChanges(task, c, encode);
      RescheduledSettles(applied, cron, now);
      task := Rescheduled(applied, cron, now);
      StoreTask(taskId, task);
      if IsActive(task, now) && hasApp {
        AddJob(taskId, now);
      } else {
        RemoveJob(taskId);
      }
      r := Ok(task);
    }

    /** Deletes a row without a job, together with its log rows. */
    method DropTask(u: string)
      requires Valid() && u in tasks && (running ==> JobId(u) !in jobs)
      modifies this`tasks, this`logs
      ensures Valid() && tasks == old(tasks) - {u} && logs == LogsWithout(old(logs), u)
    {
      forall v | v in tasks && v != u ensures CountLogs(LogsWithout(logs, u), v) == tasks[v].runCount {
        CountLogsWithout(logs, u, v);
      }
      logs := LogsWithout(logs, u);
      tasks := tasks - {u};
    }

    /** `delete_task`: the job, the task's log rows and the task go. */
    method DeleteTask(taskId: string, userId: int) returns (ok: bool, err: Option<string>)
      requires Valid()
      modifies this
      ensures Valid()
      ensures taskId !in old(tasks) ==> !ok && err == Some(TaskMissing) && unchanged(this)
      ensures taskId in old(tasks) && old(tasks)[taskId].userId != userId ==>
                !ok && err == Some("无权删除此任务") && unchanged(this)
      ensures taskId in old(tasks) && old(tasks)[taskId].userId == userId ==>
                ok && err == None && tasks == old(tasks) - {taskId} && logs == LogsWithout(old(logs), taskId)
                && jobs == (if running then old(jobs) - {JobId(taskId)} else old(jobs))
    {
      if taskId !in tasks {
        return false, Some(TaskMissing);
      }
      if tasks[taskId].userId != userId {
        return false, Some("无权删除此任务");
      }
      RemoveJob(taskId);
      DropTask(taskId);
      return true, None;
    }

    /** `pause_task`: paused and disabled, job removed; `next_run_at` is left as it was. */
    method PauseTask(taskId: string, userId: int) returns (ok: bool, err: Option<string>)
      requires Valid()
      modifies this
      ensures Valid() && logs == old(logs)
      ensures taskId !in old(tasks) ==> !ok && err == Some(TaskMissing) && unchanged(this)
      ensures taskId in old(tasks) && old(tasks)[taskId].userId != userId ==>
                !ok && err == Some("无权操作此任务") && unchanged(this)
      ensures taskId in old(tasks) && old(tasks)[taskId].userId == userId ==>
                ok && err == None
                && tasks == old(tasks)[taskId := old(tasks)[taskId].(status := Paused, isEnabled := false)]
                && jobs == (if running then old(jobs) - {JobId(taskId)} else old(jobs))
    {
      if taskId !in tasks {
        return false, Some(TaskMissing);
      }
      if tasks[taskId].userId != userId {
        return false, Some("无权操作此任务");
      }
      ReplaceKeepsValid(tasks, jobs, logs, running, cron, taskId, tasks[taskId].(status := Paused, isEnabled := false));
      tasks := tasks[taskId := tasks[taskId].(status := Paused, isEnabled := false)];
      RemoveJob(taskId);
      return true, None;
    }

    /** `resume_task`: active and enabled again, next run recomputed from now, job re-added when an app is given. */
    method ResumeTask(taskId: string, userId: int, hasApp: bool, now: int) returns (ok: bool, err: Option<string>)
      requires Valid()
      modifies this
      ensures Valid() && logs == old(logs)
      ensures taskId !in old(tasks) ==> !ok && err == Some(TaskMissing) && unchanged(this)
      ensures taskId in old(tasks) && old(tasks)[taskId].userId != userId ==>
                !ok && err == Some("无权操作此任务") && unchanged(this)
      ensures taskId in old(tasks) && old(tasks)[taskId].userId == userId ==>
                var t := Rescheduled(old(tasks)[taskId].(status := Active, isEnabled := true), cron, now);
                ok && err == None && tasks == old(tasks)[taskId := t]
                && jobs == (if hasApp && running && TriggerBuilds(cron, t.cronExpression, t.timezone)
                            then old(jobs)[JobId(taskId) := taskId] else old(jobs))
    {
      if taskId !in tasks {
        return false, Some(TaskMissing);
      }
      if tasks[taskId].userId != userId {
        return false, Some("无权操作此任务");
      }
      var t := Rescheduled(tasks[taskId].(status := Active, isEnabled := true), cron, now);
      ReplaceKeepsValid(tasks, jobs, logs, running, cron, taskId, t);
      RescheduledSettles(tasks[taskId].(status := Active, isEnabled := true), cron, now);
      tasks := tasks[taskId := t];
      if hasApp {
        AddJob(taskId, now);
      }
      return true, None;
    }

    /**
     * `_do_execute_task`: a missing or inactive task is left alone; otherwise
     * one log row is written and one run is recorded.
     */
    method ExecuteTask(taskUuid: string, now: int, finishedAt: int, durationMs: int,
                       gen: MockGenerator.ValueSource, unmodelled: Result<seq<Record>>, dataSize: nat, post: HttpOutcome,
                       decode: Decoder)
      requires Valid()
      modifies this
      ensures Valid() && jobs == old(jobs)
      ensures taskUuid !in old(tasks) || !IsActive(old(tasks)[taskUuid], now) ==>
                tasks == old(tasks) && logs == old(logs)
      ensures taskUuid in old(tasks) && IsActive(old(tasks)[taskUuid], now) ==>
                var generated := TaskData(old(tasks)[taskUuid], decode, gen, unmodelled);
                var (log, t) := Execution(old(tasks)[taskUuid], now, finishedAt, durationMs, generated, dataSize, post, cron, decode);
                logs == old(logs) + [log] && tasks == old(tasks)[taskUuid := t]
    {
      if taskUuid !in tasks || !IsActive(tasks[taskUuid], now) {
        return;
      }
      var task := tasks[taskUuid];
      var generated := TaskData(task, decode, gen, unmodelled);
      var (log, t) := Execution(task, now, finishedAt, durationMs, generated, dataSize, post, cron, decode);
      ExecutionOutcome(task, now, finishedAt, durationMs, generated, dataSize, post, cron, decode);
      RecordKeepsValid(tasks, jobs, logs, running, cron, taskUuid, t, log);
      logs := logs + [log];
      tasks := tasks[taskUuid := t];
    }

    /** `run_task_now`: the guards, then the pipeline directly; it reports success even when the pipeline skipped an inactive task. */
    method RunTaskNow(taskId: string, userId: int, now: int, finishedAt: int, durationMs: int,
                      gen: MockGenerator.ValueSource, unmodelled: Result<seq<Record>>, dataSize: nat, post: HttpOutcome,
                      decode: Decoder) returns (ok: bool, err: Option<string>)
      requires Valid()
      modifies this
      ensures Valid() && jobs == old(jobs)
      ensures taskId !in old(tasks) ==> !ok && err == Some(TaskMissing) && unchanged(this)
      ensures taskId in old(tasks) && old(tasks)[taskId].userId != userId ==>
                !ok && err == Some("无权操作此任务") && unchanged(this)
      ensures taskId in old(tasks) && old(tasks)[taskId].userId == userId ==> ok && err == None
      ensures taskId in old(tasks) && old(tasks)[taskId].userId == userId && !IsActive(old(tasks)[taskId], now) ==>
                tasks == old(tasks) && logs == old(logs)
      ensures taskId in old(tasks) && old(tasks)[taskId].userId == userId && IsActive(old(tasks)[taskId], now) ==>
                var generated := TaskData(old(tasks)[taskId], decode, gen, unmodelled);
                var (log, t) := Execution(old(tasks)[taskId], now, finishedAt, durationMs, generated, dataSize, post, cron, decode);
                logs == old(logs) + [log] && tasks == old(tasks)[taskId := t]
    {
      if taskId !in tasks {
        return false, Some(TaskMissing);
      }
      if tasks[taskId].userId != userId {
        return false, Some("无权操作此任务");
      }
      ExecuteTask(taskId, now, finishedAt, durationMs, gen, unmodelled, dataSize, post, decode);
      return true, None;
    }

    /** `get_task`: only the owner sees a task. */
    function GetTask(taskId: string, userId: int): (r: Option<Task>)
      reads this
      ensures r.Some? <==> taskId in tasks && tasks[taskId].userId == userId
      ensures r.Some? ==> r.value == tasks[taskId]
    {
      if taskId in tasks && tasks[taskId].userId == userId then Some(tasks[taskId]) else None
    }
  }

  /** A paused task stays inactive at every time until it is resumed, whatever its other columns say. */
  lemma PausedIsInactive(t: Task, now: int)
    ensures !IsActive(t.(status := Paused, isEnabled := false), now)
  {
  }

  datatype TaskStats = TaskStats(total: nat, active: nat, paused: nat, error: nat,
                                 totalRuns: int, totalSuccess: int, totalFail: int)

  function Indicator(b: bool): nat { if b then 1 else 0 }

  /** `get_task_stats` over the user's rows (`success_rate`, a float, is not modelled). */
  function Stats(ts: seq<Task>): (s: TaskStats)
    ensures s.total == |ts|
  {
    if ts == [] then TaskStats(0, 0, 0, 0, 0, 0, 0)
    else
      var rest := Stats(ts[1..]);
      var t := ts[0];
      TaskStats(rest.total + 1,
                rest.active + Indicator(t.status == Active && t.isEnabled),
                rest.paused + Indicator(t.status == Paused || !t.isEnabled),
                rest.error + Indicator(t.status == Error),
                rest.totalRuns + t.runCount, rest.totalSuccess + t.successCount, rest.totalFail + t.failCount)
  }

  /** The three state counts never overlap with 'active': every task is counted at most once as active or paused, and at most once as active or error. */
  lemma {:induction false} StatsCountsBounded(ts: seq<Task>)
    ensures Stats(ts).active + Stats(ts).paused <= Stats(ts).total
    ensures Stats(ts).active + Stats(ts).error <= Stats(ts).total
  {
    if ts != [] {
      StatsCountsBounded(ts[1..]);
    }
  }

  /** Over balanced rows the run total is the success total plus the failure total. */
  lemma {:induction false} StatsRunsBalanced(ts: seq<Task>)
    requires forall i :: 0 <= i < |ts| ==> Balanced(ts[i])
    ensures Stats(ts).totalRuns == Stats(ts).totalSuccess + Stats(ts).totalFail
  {
    if ts != [] {
      StatsRunsBalanced(ts[1..]);
    }
  }

  /** The canned descriptions of `parse_cron_description`. */
  const CommonPatterns: map<string, string> := map[
    "* * * * *" := "每分钟",
    "0 * * * *" := "每小时",
    "0 0 * * *" := "每天 00:00",
    "0 8 * * *" := "每天 08:00",
    "0 0 * * 0" := "每周日 00:00",
    "0 0 * * 1" := "每周一 00:00",
    "0 0 1 * *" := "每月 1 日 00:00",
    "0 0 1 1 *" := "每年 1 月 1 日 00:00"]

  function ParseCronDescription(expression: string): (r: string)
    ensures expression in CommonPatterns ==> r == CommonPatterns[expression]
    ensures expression !in CommonPatterns ==> r == "Cron: " + expression
  {
    if expression in CommonPatterns then CommonPatterns[expression] else "Cron: " + expression
  }

  /** A canned description never looks like the fallback, so the fallback always shows the expression itself. */
  lemma CronDescriptionDistinguishes(expression: string)
    ensures StartsWith(ParseCronDescription(expression), "Cron: ") <==> expression !in CommonPatterns
    ensures expression !in CommonPatterns ==> ParseCronDescription(expression)[6..] == expression
  {
    var r := ParseCronDescription(expression);
    if expression in CommonPatterns {
      assert r[0] != 'C' by {
        assert forall e :: e in CommonPatterns ==> CommonPatterns[e][0] != 'C';
      }
    } else {
      assert r[..6] == "Cron: ";
    }
  }

  /** `get_next_runs`: `count` successive fire times from now, or none for an unparseable expression. */
  method GetNextRuns(cron: Cron, expression: string, now: int, count: int) returns (runs: seq<int>)
    ensures !cron.valid(expression) ==> runs == []
    ensures cron.valid(expression) ==> |runs| == (if count > 0 then count else 0)
    ensures |runs| > 0 ==> runs[0] == cron.next(expression, now) && runs[0] > now
    ensures forall i :: 0 < i < |runs| ==> runs[i] == cron.next(expression, runs[i - 1]) && runs[i] > runs[i - 1]
  {
    if !cron.valid(expression) {
      return [];
    }
    runs := [];
    var current := now;
    var k := 0;
    while k < count
      invariant 0 <= k && (count > 0 ==> k <= count) && (count <= 0 ==> k == 0) && |runs| == k
      invariant k == 0 ==> current == now
      invariant k > 0 ==> current == runs[k - 1]
      invariant |runs| > 0 ==> runs[0] == cron.next(expression, now) && runs[0] > now
      invariant forall i :: 0 < i < |runs| ==> runs[i] == cron.next(expression, runs[i - 1]) && runs[i] > runs[i - 1]
    {
      var next := cron.next(expression, current);
      runs := runs + [next];
      current := next;
      k := k + 1;
    }
  }
}
