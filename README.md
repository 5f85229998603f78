# PanguCreate test-data platform — a Dafny model of its core

PanguCreate generates test data. A user describes fields: a name, a data type and options. The platform then does the following:

- generates mock records from those fields, either on the server or in the browser;
- generates related tables whose foreign keys point at generated primary keys;
- validates records against rules and masks sensitive fields;
- exports records as JSON, CSV or SQL, and imports them back;
- saves field configurations as templates and shares them in a template market;
- runs generation on a cron schedule and delivers the results to webhooks;
- keeps the connection settings of the user's own PostgreSQL and MongoDB databases.

Around this sit the account layer (JWT login, API keys, rate limiting), system settings and the generation history.

The model restates this core in Dafny, one module per source file:

| module | file | models |
|---|---|---|
| `Wrappers`, `Values`, `Text` | — | `Result`/`Option`, the JSON-like values and dicts the services pass around, and the string helpers (`strip`, `split`, `join`, case folding) |
| `MockGenerator`, `Formats` | backend/data_generator.py | the data-type catalogue, the per-type value dispatch and `generate_mock_data`; the formatted values built from random draws |
| `BrowserGenerator` | lib/data-generator.ts | the browser-side catalogue filter, `generateValue` and `generateMockData` |
| `GeneratorService` | backend/services/data_generator_service.py | `generate_data` over field specs |
| `RelationGenerator`, `Shuffling` | backend/services/relation_generator_service.py | table generation, then foreign-key assignment by one-to-one, one-to-many and many-to-one relations (the shuffle is Python's in-place Fisher–Yates) |
| `Export` | backend/services/export_service.py | SQL INSERT text and the field-ordered rows |
| `Import` | backend/services/import_service.py | JSON, JSON Lines and CSV parsing and field checks |
| `Validation` | backend/services/validation_service.py | single-rule validators, `validate_field`, `validate_record` and batch validation with uniqueness across records |
| `Masking` | backend/services/masking_service.py | the seven masking strategies, the presets and the record passes |
| `ScheduledTask`, `Scheduler` | backend/models/scheduled_task.py, backend/services/scheduler_service.py | the task row and the scheduler service: lifecycle, job registry, execution pipeline, statistics |
| `Webhooks`, `WebhookService` | backend/models/webhook.py, backend/services/webhook_service.py | the webhook row, its validation and delivery accounting |
| `ApiKeys`, `ApiKeyService` | backend/models/api_key.py, backend/services/api_key_service.py | key layout, permissions, expiry, usage accounting |
| `AuthMiddleware`, `AuthService` | backend/middleware/auth.py, backend/services/auth_service.py | bearer-token extraction, the decorators' guard chains, the sliding-window rate limiter, registration and login |
| `Templates`, `TemplateMarket` | backend/models/template.py, backend/services/template_market_service.py | template rows with ratings, downloads, favourites and tags, and the market operations |
| `InMemoryTemplates` | backend/services/template_service.py | the in-memory template list with its four defaults |
| `SystemSettings`, `SettingsManagement` | backend/models/system_setting.py, backend/services/settings_service.py | typed settings and the settings service |
| `Codecs`, `DataSources`, `DataSourceService` | backend/models/datasource.py, backend/services/datasource_service.py | data-source rows, with the password kept as base64 of its UTF-8 bytes, and the service around them |
| `HistoryService` | backend/services/history_service.py | generation history and project counters |
| `MongoConnector`, `PostgresConnector` | backend/connectors/mongo_connector.py, backend/connectors/postgres_connector.py | schema inference from sampled documents and the SQL the PostgreSQL connector builds |
| `RelationPage` | frontend/src/pages/RelationPage.tsx | the state handlers of the relation designer |
| `Preview`, `LegacyPreview` | frontend/src/components/PreviewPanel.tsx, components/preview-panel.tsx | the copy and export text of the two preview panels |
| `TemplateManager` | components/template-manager.tsx | the browser-side saved-template list |

Objects that the source updates in place are classes in the model. Examples are the scheduler service, the rate limiter, and the tables the ORM sessions change; each of their methods states the whole new state. Pure helpers are functions, and lemmas relate the functions to each other.

The following are parameters rather than code:

- clock readings, random draws and generated uuids;
- the JSON, CSV, regex, hash and JWT libraries;
- croniter and APScheduler;
- the database drivers;
- the HTTP client.

Each parameter carries only the property the model relies on. For example, the next cron fire time is always after the given moment.

## Model

| member | source | states |
|---|---|---|
| ScheduledTask.Fields | backend/models/scheduled_task.py:66-71 | `fields` is the decoded configuration text, and `[]` when the text is empty or does not decode |
| ScheduledTask.OutputSettings | backend/models/scheduled_task.py:79-84 | `output_settings` is the decoded configuration, and `{}` when the column is NULL, empty or does not decode |
| ScheduledTask.NotEnabledOrActiveIsInactive | backend/models/scheduled_task.py:94-97 | a disabled task, or one whose status is not active (paused, completed, error), is inactive at every time |
| ScheduledTask.ActiveUntilExpiry | backend/models/scheduled_task.py:98-99 | expiry is strict: at the instant `expires_at` an enabled, active task below a truthy `max_runs` is still active; at every later instant it is inactive |
| ScheduledTask.ActiveEarlier | backend/models/scheduled_task.py:92-102 | a task active at some time was active at every earlier time |
| ScheduledTask.ExhaustedIsInactive | backend/models/scheduled_task.py:100-101 | a run count at or above a truthy `max_runs` makes the task inactive |
| ScheduledTask.UnlimitedRuns | backend/models/scheduled_task.py:99-101 | with `max_runs` NULL or 0, the run count never changes whether the task is active |
| ScheduledTask.RecordRun | backend/models/scheduled_task.py:141-159 | `record_run` adds one run and one success or one failure, and stamps `last_run_at`; the status becomes completed exactly when a truthy `max_runs` is reached; no other column changes |
| ScheduledTask.RecordRunKeepsBalance | backend/models/scheduled_task.py:141-159 | `run_count - success_count - fail_count` is kept, so a task whose runs are all counted stays so |
| ScheduledTask.RecordRunReachingLimit | backend/models/scheduled_task.py:157-158 | the run that reaches a truthy `max_runs` completes the task, and it is inactive at every later time |
| ScheduledTask.RecordRunNeverErrors | backend/models/scheduled_task.py:141-159 | `record_run` never moves a task into the error status and never re-activates one |
| ScheduledTask.FindActiveTasks | backend/models/scheduled_task.py:167-169 | `find_active_tasks` returns only enabled tasks with status active, taken from the table, and every such task |
| ScheduledTask.FindActiveTasksConcat | backend/models/scheduled_task.py:167-169 | the query keeps table order: the result for a concatenation is the result for each part, in turn |
| ScheduledTask.FindActiveTasksSingle | backend/models/scheduled_task.py:167-169 | one task is returned, once, exactly when it is enabled with status active (with the concatenation lemma this fixes order and multiplicity) |
| ScheduledTask.ActiveTasksAreFound | backend/models/scheduled_task.py:167-169 | every task that is active at some time is among those loaded at start-up |
| ScheduledTask.ExpiredTaskStillFound | backend/models/scheduled_task.py:167-169 | the loader ignores expiry: an enabled, active-status task that has expired is loaded although it is not active |
| Scheduler.SendWebhook | backend/services/scheduler_service.py:196-224 | `_send_webhook` fails with the AttributeError exactly when the output settings are not a dict; otherwise it reports "success" exactly when a URL is set, the headers are a dict (or absent) and the POST answered with a status below 400, and "failed" otherwise; headers that are not a dict fail with the TypeError's message before anything is posted |
| Scheduler.NullHeadersFail | backend/services/scheduler_service.py:205-206 | `{"url": "u", "headers": null}` fails with "'NoneType' object does not support item assignment", whatever the server would answer |
| Scheduler.HandleOutput | backend/services/scheduler_service.py:182-194 | only output type 'webhook' sends anything; every other type is "skipped"; a reported success means a webhook answered below 400 |
| Scheduler.Rescheduled | backend/services/scheduler_service.py:226-233 | `_update_next_run` changes only `next_run_at`: for a parseable expression it is after now, and for an unparseable one it is left as it was |
| Scheduler.NewTask | backend/services/scheduler_service.py:260-288 | the row `create_task` saves is active and enabled, has no runs, keeps the given uuid, owner and expression, and has its next run after now; an output config is stored only when one was given |
| Scheduler.NewTaskActivity | backend/services/scheduler_service.py:260-288 | a new task is active at once iff it has not already expired and its `max_runs` is not negative |
| Scheduler.ApplyChangesKeepsRunState | backend/services/scheduler_service.py:319-345 | `update_task` never changes the uuid, the owner, the status, the enabled flag or the run accounting |
| Scheduler.ApplyChangesIdempotent | backend/services/scheduler_service.py:319-345 | applying the same keyword arguments twice equals applying them once, and no arguments change nothing |
| Scheduler.ExecutionOutcome | backend/services/scheduler_service.py:120-180 | a run writes one finished log row and records one run; the log says success iff the success count grew, iff generation and output both succeeded; balance is kept |
| Scheduler.SuccessfulExecution | backend/services/scheduler_service.py:142-170 | on success the log holds the generated row count and the output status, and the next run is after the finish time |
| Scheduler.FailedExecution | backend/services/scheduler_service.py:172-180 | a failed run records the message on the log and on the task, and leaves `next_run_at` as it was |
| Scheduler.LogsWithout | backend/services/scheduler_service.py:376-377 | the log rows left after a delete all belong to other tasks and were there before |
| Scheduler.CountLogsWithout | backend/services/scheduler_service.py:376-377 | deleting one task's logs leaves it none and leaves every other task's log count as it was |
| Scheduler.ReplaceKeepsValid | backend/services/scheduler_service.py:304-422 | rewriting a stored row with the same uuid, balance and run count and a parseable expression keeps the store invariant |
| Scheduler.RecordKeepsValid | backend/services/scheduler_service.py:120-180 | recording one run together with its one log row keeps the store invariant |
| Scheduler.RescheduledSettles | backend/services/scheduler_service.py:226-233 | recomputing the next run twice from the same moment gives the same row |
| Scheduler.SchedulerService.AddJob | backend/services/scheduler_service.py:73-98 | `_add_job` registers job `task_<uuid>` and sets the next fire time when the scheduler runs and `CronTrigger.from_crontab` accepts the expression and time zone; without a scheduler, or when the trigger cannot be built, nothing changes |
| Scheduler.NicknameBuildsNoTrigger | backend/services/scheduler_service.py:82 | "@daily", which croniter reads, never builds a trigger, so no job is registered for it |
| Scheduler.SixFieldsBuildNoTrigger | backend/services/scheduler_service.py:82 | an expression of six fields never builds a trigger |
| Scheduler.SchedulerService.RemoveJob | backend/services/scheduler_service.py:100-109 | `_remove_job` drops job `task_<uuid>`; a missing job or a missing scheduler is ignored |
| Scheduler.SchedulerService.CreateTask | backend/services/scheduler_service.py:235-294 | an unparseable expression is refused and nothing changes; otherwise exactly the new row is stored, and a job is added when an app is given and the trigger builds |
| Scheduler.SchedulerService.UpdateTask | backend/services/scheduler_service.py:304-362 | a missing task, a foreign owner or a bad new expression change nothing; otherwise the arguments apply, the next run is recomputed, and the job is re-armed when the task is active and an app is given (kept as it was when the trigger cannot be built), or removed otherwise |
| Scheduler.SchedulerService.DeleteTask | backend/services/scheduler_service.py:364-380 | guards as above; the owner's delete removes the job, every log row of the task and the task |
| Scheduler.SchedulerService.PauseTask | backend/services/scheduler_service.py:382-396 | the owner's pause sets status paused, clears the enabled flag and removes the job; `next_run_at` is not cleared |
| Scheduler.SchedulerService.ResumeTask | backend/services/scheduler_service.py:398-422 | the owner's resume makes the task active and enabled, recomputes the next run from now, and re-adds the job when an app is given and the trigger builds |
| Scheduler.SchedulerService.ExecuteTask | backend/services/scheduler_service.py:120-180 | a missing or inactive task is left alone; otherwise exactly one log row is appended and the task row becomes the recorded run of generating the task's own fields and row count |
| Scheduler.SuccessLogsRowCount | backend/services/scheduler_service.py:144-161 | a successful run logs the task's row count as the rows generated (none for a count of zero or less) |
| Scheduler.SchedulerService.RunTaskNow | backend/services/scheduler_service.py:424-435 | after the owner check the pipeline runs directly and reports success even when it skipped an inactive task |
| Scheduler.SchedulerService.GetTask | backend/services/scheduler_service.py:437-442 | a task is returned iff it exists and belongs to the user |
| Scheduler.PausedIsInactive | backend/services/scheduler_service.py:382-396 | a paused task is inactive at every time until it is resumed |
| Scheduler.Stats | backend/services/scheduler_service.py:490-512 | `get_task_stats` counts every task of the user once in the total |
| Scheduler.StatsCountsBounded | backend/services/scheduler_service.py:496-499 | active plus paused, and active plus error, never exceed the total |
| Scheduler.StatsRunsBalanced | backend/services/scheduler_service.py:500-502 | over balanced rows, total runs equal total successes plus total failures |
| Scheduler.ParseCronDescription | backend/services/scheduler_service.py:514-530 | a listed expression gets its canned description; any other gets `Cron: <expression>` |
| Scheduler.CronDescriptionDistinguishes | backend/services/scheduler_service.py:514-530 | a description starts with `Cron: ` iff the expression is not listed, and then the expression follows verbatim |
| Scheduler.GetNextRuns | backend/services/scheduler_service.py:532-542 | `get_next_runs` gives nothing for an unparseable expression, otherwise `count` fire times, each the trigger's next after the previous, strictly increasing from now |
| Scheduler.SchedulerService.constructor | backend/services/scheduler_service.py:22-23 | a new service has no tasks, jobs or logs, and its invariant holds |
| GeneratorService.Spec | backend/services/data_generator_service.py:85 | a field spec takes "name" with default "" and "type" with default "string" |
| GeneratorService.Specs | backend/services/data_generator_service.py:85 | `field_specs` holds one spec per field, in field order |
| GeneratorService.SpecError | backend/services/data_generator_service.py:73-76 | the only error left is the TypeError of an unhashable type (a list or a dict) in the generator lookup |
| GeneratorService.SpecName | backend/services/data_generator_service.py:85 | a field without "name" writes under "", and one with a text name writes under that text |
| GeneratorService.SpecType | backend/services/data_generator_service.py:85 | a field without "type" is generated as "string" |
| GeneratorService.GenerateData | backend/services/data_generator_service.py:78-93 | `generate_data` is the generator's record builder over the normalised specs: `count` records in field order, or the first lookup error |
| GeneratorService.NoErrorWithHashableTypes | backend/services/data_generator_service.py:78-93 | with no list or dict types nothing raises |
| GeneratorService.GenerateFromValue | backend/services/data_generator_service.py:78-93 | on a decoded value: a list of dicts gives the generator's records (`count` of them, none for a count of zero or less) or `str(e)` of its error; a list with another element raises that element's AttributeError even for a count of zero |
| GeneratorService.GenerateFromValueSucceeds | backend/services/data_generator_service.py:78-93 | a list of dicts with no list or dict types always generates |
| MockGenerator.GenerateValue | backend/data_generator.py:62-99 | `generate_value` uses the table's generator for a listed type, and "" for any other type |
| MockGenerator.CatalogueCoversGenerators | backend/data_generator.py:8-40 | every `DATA_TYPES` entry has a generator, so a listed type never falls through to "" |
| MockGenerator.PhoneAndCardValues | backend/data_generator.py:69 | a mobile number is 11 digits behind a listed prefix, and a bank card number (line 89) is 16 digits behind a listed prefix |
| MockGenerator.FieldError | backend/data_generator.py:108 | `record[field["name"]] = generate_value(field["type"])` raises nothing iff the field has both "type" and "name"; the value is computed first, so a missing type is reported before a missing name |
| MockGenerator.FirstError | backend/data_generator.py:107-108 | no error is raised iff no field raises |
| MockGenerator.FirstErrorAt | backend/data_generator.py:107-108 | the error raised is that of the first field that raises |
| MockGenerator.GeneratedPairs | backend/data_generator.py:107-108 | a well-formed field writes its name and its type's generated value, and "" for an unlisted type |
| MockGenerator.Pairs | backend/data_generator.py:107-108 | a record assigns one pair per field, in field order |
| MockGenerator.Rows | backend/data_generator.py:104-109 | record i assigns its pairs in order, for each of the `n` records |
| MockGenerator.FirstErrorStep | backend/data_generator.py:107-108 | each further field either raises the first error of all fields or extends the error-free prefix |
| MockGenerator.GenerateMockData | backend/data_generator.py:102-110 | the loop returns no records for a count of zero or less; otherwise it returns the first field's error, or else `count` records |
| MockGenerator.FieldNames | backend/data_generator.py:108 | each field writes under the key its "name" gives, in field order |
| MockGenerator.FieldNameOfWellFormed | backend/data_generator.py:108 | a well-formed field's key is the text of its "name" |
| MockGenerator.PairNames | backend/data_generator.py:107-108 | the keys a record's pairs write are the fields' names |
| MockGenerator.RecordShape | backend/data_generator.py:106-109 | a record has a key for exactly the fields' names, each once, and no more keys than fields |
| MockGenerator.RecordKeyOrder | backend/data_generator.py:106-109 | with distinct names, the record's keys are the names in field order |
| MockGenerator.RecordValues | backend/data_generator.py:106-109 | the value under a key is the one the last field of that name generated |
| Formats.RandInt | lib/data-generator.ts:241-243 | `randomInt(min, max)` lies between min and max inclusive |
| Formats.DrawInts | lib/data-generator.ts:348-351 | `n` successive `randomInt(lo, hi)` calls, each within bounds |
| Formats.Choice | lib/data-generator.ts:245-247 | `randomElement` returns an element of the array |
| Formats.ChinesePhone | lib/data-generator.ts:271-274 | a mobile number is 11 digits, starting with the chosen prefix |
| Formats.BankCard | lib/data-generator.ts:344-353 | a bank card number is 16 digits, starting with the chosen prefix |
| Formats.TwoDigits | lib/data-generator.ts:283-284 | `padStart(2, "0")` of a month or day gives two digits |
| Formats.IdCard | lib/data-generator.ts:280-288 | an identity card number is 18 digits, starting with the chosen area code |
| Formats.PaddedByteHex | lib/data-generator.ts:334 | a byte's hex text padded to two places is two hex digits |
| Formats.MacGroup | lib/data-generator.ts:334 | one group is two upper-case hex digits |
| Formats.MacShape | lib/data-generator.ts:331-336 | a MAC address is 17 characters, and splitting it at ':' gives back its six upper-case two-digit groups |
| Formats.FillTemplate | lib/data-generator.ts:250-254 | the template keeps its length and its fixed characters; each 'x' becomes a hex digit and each 'y' one of 8, 9, a, b |
| Formats.UuidShape | lib/data-generator.ts:249-255 | `generateUUID` gives the version-4 layout of section 4.4 of RFC 4122: 36 characters, dashes at 8, 13, 18 and 23, '4' at 14, a variant digit at 19, hex elsewhere |
| BrowserGenerator.ByCategory | lib/data-generator.ts:52-54 | the filter keeps exactly the catalogue entries of the category, and never more entries than the catalogue has |
| BrowserGenerator.ByCategoryConcat | lib/data-generator.ts:52-54 | filtering distributes over concatenation, so the kept entries stay in catalogue order |
| BrowserGenerator.ByCategoryCount | lib/data-generator.ts:52-54 | the filter keeps as many entries as carry the category |
| BrowserGenerator.GetDataTypesByCategoryContents | lib/data-generator.ts:52-54 | `getDataTypesByCategory` holds exactly the `dataTypes` entries of that category, as many as carry it |
| BrowserGenerator.GenerateValue | lib/data-generator.ts:383-450 | an unlisted type gives ""; a number comes back exactly for `age` and `number`, and a boolean exactly for `boolean` |
| BrowserGenerator.CatalogueHasCases | lib/data-generator.ts:3-50 | every `dataTypes` id has a case in the switch, so no listed type falls through to "" |
| BrowserGenerator.UuidValue | lib/data-generator.ts:249-255 | a `uuid` value has the version-4 layout of section 4.4 of RFC 4122 |
| BrowserGenerator.DigitValues | lib/data-generator.ts:271-288 | phone numbers are 11 digits, identity cards 18 and bank cards (line 344) 16, each behind a listed prefix |
| BrowserGenerator.MacValue | lib/data-generator.ts:331-336 | a `mac` value is 17 characters: six upper-case two-digit hex groups joined by ':' |
| BrowserGenerator.RangeValues | lib/data-generator.ts:399-422 | ages lie in 18..65 and numbers in 1..100000, and a zip code is six digits |
| BrowserGenerator.RecordPairs | lib/data-generator.ts:457-459 | a record assigns `record[field.name] = generateValue(field.type)` once per field, in field order |
| BrowserGenerator.GenerateMockData | lib/data-generator.ts:452-462 | a negative count throws the RangeError of `Array(count)`; otherwise there are exactly `count` records |
| BrowserGenerator.MockDataRecords | lib/data-generator.ts:452-462 | each record has a key for exactly the field names, none twice; a key holds the value its last field generated; with distinct names the keys are created in field order |
| BrowserGenerator.MockDataJsonKeys | lib/data-generator.ts:456-459 | enumerated, a record with distinct field names lists each name once, array-index names first in ascending order, the others in field order |
| BrowserGenerator.UnknownTypeColumn | lib/data-generator.ts:447-448 | a field of an unknown type holds "" in every record |
| BrowserGenerator.LastValueAt | lib/data-generator.ts:457-459 | the last field of a name decides its value |
| RelationGenerator.GenFields | backend/services/relation_generator_service.py:39-46 | each table field becomes `{name, type, options: {}}`, one per field, in order |
| RelationGenerator.GenFieldsNamed | backend/services/relation_generator_service.py:39-46 | every converted field carries its name, so the generator service never misses a key |
| RelationGenerator.TableResultRows | backend/services/relation_generator_service.py:48 | a table fails iff its generation raises; a table that generates has exactly `count` rows, and none for a count of zero or less |
| RelationGenerator.TableResults | backend/services/relation_generator_service.py:22-49 | table k's result is the generator service's result for its own fields and count |
| RelationGenerator.TableNames | backend/services/relation_generator_service.py:49 | every table's name is a key of the result |
| RelationGenerator.CollectOutcome | backend/services/relation_generator_service.py:22-49 | step 1 fails iff some table fails; otherwise the result has exactly one entry per table name |
| RelationGenerator.CollectRows | backend/services/relation_generator_service.py:49 | the last table of each name decides that name's rows |
| RelationGenerator.CollectStep | backend/services/relation_generator_service.py:22-49 | one more table either ends step 1 with its error or stores its rows under its name |
| RelationGenerator.CollectErrStays | backend/services/relation_generator_service.py:22-49 | once an earlier table fails, the whole generation fails with that error |
| RelationGenerator.KeyColumn | backend/services/relation_generator_service.py:66 | `[row.get(col) for row in rows]` holds one key per source row, with None for a missing key |
| RelationGenerator.Cycle | backend/services/relation_generator_service.py:78-80 | target row i gets shuffled key `i % len(keys)` |
| RelationGenerator.Picks | backend/services/relation_generator_service.py:85-86 | each target row gets one `random.choice` of the source keys |
| RelationGenerator.RelationValues | backend/services/relation_generator_service.py:71-100 | a rewriting relation yields one key per target row |
| RelationGenerator.ApplyRelation | backend/services/relation_generator_service.py:52-100 | one relation keeps every table and every table's row count |
| RelationGenerator.FillColumnInPlace | backend/services/relation_generator_service.py:78-80 | `row[target_col] = key`, row by row, gives every target row its own key and no other change |
| RelationGenerator.ApplyRelationStep | backend/services/relation_generator_service.py:52-100 | one relation: read the source keys, shuffle or draw, and overwrite the target column |
| RelationGenerator.GenerateTables | backend/services/relation_generator_service.py:22-49 | step 1 generates each table's rows in list order |
| RelationGenerator.ApplyRelations | backend/services/relation_generator_service.py:52-100 | step 2 applies the relations in list order |
| RelationGenerator.GenerateRelationData | backend/services/relation_generator_service.py:7-102 | `generate_relation_data` is step 1 followed by step 2 |
| RelationGenerator.RelatedKeepsShape | backend/services/relation_generator_service.py:52-100 | the relation loop keeps every table and every row count |
| RelationGenerator.ResultShape | backend/services/relation_generator_service.py:7-102 | the result has one entry per table name, and the last table of a name has its `count` rows |
| RelationGenerator.ResultFails | backend/services/relation_generator_service.py:7-102 | generation fails iff some table with rows has a list or dict field type |
| RelationGenerator.ApplyRelationTarget | backend/services/relation_generator_service.py:52-100 | an applying relation replaces the target rows by the filled ones and keeps every other table |
| RelationGenerator.SkippedRelation | backend/services/relation_generator_service.py:59-69 | a relation naming an absent table, with no source rows, or of another type changes nothing |
| RelationGenerator.RelationTouchesOnlyTargetColumn | backend/services/relation_generator_service.py:52-100 | only the target column of the target rows changes; every other table and column is unchanged |
| RelationGenerator.DrawnKeysComeFromSource | backend/services/relation_generator_service.py:82-100 | for one-to-many and many-to-many, every target row holds one of the source column's values |
| RelationGenerator.OneToOneUsesPermutation | backend/services/relation_generator_service.py:71-80 | for one-to-one, target row i gets entry `i % len(keys)` of a permutation of the source keys |
| RelationGenerator.LaterRelationAppliesLast | backend/services/relation_generator_service.py:52 | appending a relation applies it to the result of the earlier ones |
| Shuffling.SwapPermutes | backend/services/relation_generator_service.py:76 | one swap of the shuffle keeps the multiset of keys |
| Shuffling.FisherYatesPermutes | backend/services/relation_generator_service.py:76 | the Fisher-Yates pass of `random.shuffle` keeps the multiset of keys |
| Shuffling.ShuffledPermutes | backend/services/relation_generator_service.py:76 | `random.shuffle` returns a permutation of its input |
| Shuffling.Shuffle | backend/services/relation_generator_service.py:75-76 | the in-place shuffle loop computes the Fisher-Yates permutation of the copied keys |
| Export.SqlLiteral | backend/services/export_service.py:51-61 | a text literal reads back through SQL's doubled-quote rule as the text; an integer reads back as itself; booleans are 1/0 and None is NULL |
| Export.Cells | backend/services/export_service.py:49-61 | a row gives one literal per field name |
| Export.Tuples | backend/services/export_service.py:48-62 | one tuple per row |
| Export.InsertStatementShape | backend/services/export_service.py:64 | the statement starts with `INSERT INTO <table> (<columns>) VALUES` and ends with ';' |
| Export.ToSql | backend/services/export_service.py:39-64 | the row-by-row, cell-by-cell loop builds the export text |
| Export.RowValues | backend/services/export_service.py:49-60 | the cell loop gives one SQL literal per field name, in field order, a missing field counting as the empty string |
| Export.SqlEmpty | backend/services/export_service.py:41-42 | the export is empty iff there are no rows or no fields; otherwise it is one INSERT statement ending in ';' |
| Export.SqlMissingColumn | backend/services/export_service.py:51 | a column the row lacks is written as the empty literal '' |
| Export.SqlTextCellRoundTrip | backend/services/export_service.py:53-55 | a text cell reads back as the row's text |
| Export.Present | backend/services/export_service.py:76-78 | a name is kept iff it is configured and the row has it |
| Export.OrderedGet | backend/services/export_service.py:74-79 | a configured name keeps its row's value, and every other key is dropped |
| Export.OrderedKeys | backend/services/export_service.py:74-79 | with distinct configured names, the rebuilt row's keys are the present names in configuration order |
| Export.EnsureFieldOrder | backend/services/export_service.py:66-81 | the loop returns the data itself when there are no fields, and otherwise every row rebuilt |
| Export.FieldOrderShape | backend/services/export_service.py:66-81 | the row count is kept, and each row holds exactly its configured keys with their values |
| Export.CsvRows | backend/services/export_service.py:32-35 | one row per data row, with one cell per field name |
| Export.CsvEmpty | backend/services/export_service.py:21-37 | no rows or no fields give "" without calling the writer; otherwise the writer gets the names and the ordered rows |
| Import.ParseJson | backend/services/import_service.py:42-52 | `parse_json` wraps an object into a one-item list, keeps a list, and refuses anything else; a decode error is reported with its message |
| Import.ParseJsonl | backend/services/import_service.py:54-67 | the parse gives the JSON Lines items of the stripped text split at newlines |
| Import.DecodeLines | backend/services/import_service.py:57-65 | the line loop skips blank lines, appends each decoded item in order and stops at the first undecodable line with its 1-based number |
| Import.JsonLinesErrStays | backend/services/import_service.py:58-64 | once a line fails, the whole text fails with that line's error |
| Import.JsonLinesAllGood | backend/services/import_service.py:58-65 | when every non-blank line decodes, there is one item per non-blank line |
| Import.JsonLinesFirstBad | backend/services/import_service.py:63-64 | the first bad line is reported by its 1-based number |
| Import.ParseCsv | backend/services/import_service.py:69-99 | `parse_csv` after tokenisation: no rows is an error; otherwise the header branch or the index branch |
| Import.HeaderRows | backend/services/import_service.py:79-90 | the header branch keeps one record per kept row |
| Import.IndexRows | backend/services/import_service.py:91-95 | the branch without a header makes one record per row |
| Import.HeaderRecordsCount | backend/services/import_service.py:82-90 | each row of the header's length or non-empty gives exactly one record; empty rows give none |
| Import.HeaderRecordShape | backend/services/import_service.py:86-90 | with distinct headers, a padded or truncated row has the headers as keys, and header i holds cell i or '' |
| Import.LastValueAt | backend/services/import_service.py:84 | with distinct headers, `dict(zip(headers, row))` maps header i to cell i |
| Import.ColumnKeysDistinct | backend/services/import_service.py:95 | distinct indices give distinct `col_i` keys |
| Import.IndexRecordShape | backend/services/import_service.py:95 | without a header, a row's keys are col_0 … col_{n-1} in order, and col_i holds cell i |
| Import.ParseContent | backend/services/import_service.py:101-114 | `json` dispatches to `parse_json`, and a format other than json, jsonl or csv is refused with its name |
| Import.RequiredErrors | backend/services/import_service.py:174-176 | there are no messages iff no required key is missing or falsy |
| Import.DatasourceRequiredErrors | backend/services/import_service.py:168-176 | the required-key check of a data source passes iff name, type, host and port are all truthy |
| Import.DatasourceItemExactly | backend/services/import_service.py:164-186 | a data-source item has no messages iff it is a dict whose name, type, host and port are truthy and whose type is mysql, postgresql or mongodb; only a non-dict item raises |
| Import.FieldsItemExactly | backend/services/import_service.py:143-162 | a fields item has no messages iff it is a dict with a truthy name and type; only a non-dict item raises |
| Import.FieldMessages | backend/services/import_service.py:129-133 | a template field gives no message iff its name and its type are both truthy |
| Import.FieldEntryErrorsRaise | backend/services/import_service.py:129-133 | the field loop of a template raises iff one of the fields is not a dict |
| Import.FieldEntryErrorsClean | backend/services/import_service.py:129-133 | the field loop gives no message and no error iff every field is a dict with a truthy name and type |
| Import.TemplateItemExactly | backend/services/import_service.py:116-141 | a template item has no messages iff it is a dict with a truthy name and a non-empty list of fields, each a dict with a truthy name and type; it raises iff it is not a dict or its fields are a list holding a non-dict |
| Import.ValidateConfig | backend/services/import_service.py:116-186 | the item loops of the three `validate_*_config` partition the items by their checks |
| Import.PartitionedErrStays | backend/services/import_service.py:121-139 | once an item raises, the whole validation raises the same way |
| Import.PartitionEntries | backend/services/import_service.py:121-141 | the valid list is the clean items in order; the two lists together are as long as the input; every error entry carries its item's index, the item and its non-empty messages |
| Import.PartitionRejected | backend/services/import_service.py:136-139 | an item is rejected iff its check gives messages |
| Import.ValidateImportData | backend/services/import_service.py:188-200 | raw data passes unchecked, and an unknown type gives no items and one error |
| Import.ImportTemplates | backend/services/import_service.py:202-225 | every template fails in the constructor and is reported with its index; none is imported |
| Import.ImportDatasources | backend/services/import_service.py:227-254 | the created count plus the errors equals the number of valid items |
| Import.ProcessImportStages | backend/services/import_service.py:256-303 | a parse error stops at "parse", and no valid item stops at "validate"; a completed import counts every parsed item and every valid one, and imports no more than were valid |
| Import.UnsupportedFormat | backend/services/import_service.py:101-114 | any format other than json, jsonl or csv is refused at the parse stage |
| Validation.Fail | backend/services/validation_service.py:96 | a failure is never valid |
| Validation.Required | backend/services/validation_service.py:93-97 | `validate_required` fails exactly on a falsy value that is not a bool or an int (None, '', [], {}), with the rule's message or the default |
| Validation.TypeCheck | backend/services/validation_service.py:99-116 | an unhashable expected type raises; an expected type outside the table passes; otherwise the value is valid iff it is an instance (bool counting as int), with the default message `类型必须为 <type>` |
| Validation.LengthCheck | backend/services/validation_service.py:118-135 | None passes; an exact length is checked first; a bound that is not a number raises; otherwise the value is valid iff its length meets every bound |
| Validation.RangeCheck | backend/services/validation_service.py:137-154 | None passes, and a non-number fails with `值必须为数字`; otherwise the value is valid iff it lies within the given bounds |
| Validation.PatternCheck | backend/services/validation_service.py:156-166 | None and '' pass, and a pattern that is not text raises; otherwise the value fails iff the pattern does not match |
| Validation.EnumCheck | backend/services/validation_service.py:168-175 | None passes; otherwise the value is valid iff it is among the allowed values, and raises iff that membership test raises |
| Validation.UniqueCheck | backend/services/validation_service.py:177-184 | None passes; otherwise the value is valid iff it is not among the existing values |
| Validation.PresetCheck | backend/services/validation_service.py:186-192 | an unhashable name raises, and an unknown or non-text name passes; a known preset fails with the preset's own message |
| Validation.RuleCheck | backend/services/validation_service.py:206-226 | a rule of an unknown type passes, so it is skipped |
| Validation.RuleCheckAsWritten | backend/services/validation_service.py:209-224 | as written, a rule holding a key the validator already receives by position raises "got multiple values"; any other rule is checked as intended |
| Validation.TypeRuleRaises | backend/services/validation_service.py:211-212 | the type rule `{type: 'type', expected_type: 'string'}` raises as written, while the intended check reports the mismatch |
| Validation.TypeRuleReported | backend/services/validation_service.py:99-116 | the intended check of that rule on 3 reports `类型必须为 string` |
| Validation.ValidateField | backend/services/validation_service.py:194-231 | the rule loop computes the field's errors in rule order |
| Validation.FieldErrorsErrStays | backend/services/validation_service.py:206-229 | an exception from one rule ends `validate_field` with that exception |
| Validation.FieldErrorsShape | backend/services/validation_service.py:228-231 | there is at most one error per rule and each is truthy; there are no errors iff no rule reports one |
| Validation.UnknownRuleSkipped | backend/services/validation_service.py:225-226 | a rule of an unknown type adds nothing |
| Validation.FieldNames | backend/services/validation_service.py:245 | the fields are taken in rule order |
| Validation.ValidateRecord | backend/services/validation_service.py:233-251 | the field loop computes `{field: errors}` for the fields with errors |
| Validation.RecordErrorsErrStays | backend/services/validation_service.py:245-249 | an exception in one field ends `validate_record` with it |
| Validation.RecordErrorsExact | backend/services/validation_service.py:233-251 | the report lists exactly the fields whose rules give errors, each with those errors |
| Validation.ArmRules | backend/services/validation_service.py:271-276 | arming keeps the number of rules |
| Validation.Armed | backend/services/validation_service.py:270-276 | arming keeps the number of fields |
| Validation.ArmUnique | backend/services/validation_service.py:270-276 | the loop points every unique rule at the values seen so far in its field |
| Validation.ArmRuleList | backend/services/validation_service.py:272-276 | the inner loop gives back the field's rules in order, each unique rule with existing_values set to the field's seen values and every other rule unchanged |
| Validation.RecordSeen | backend/services/validation_service.py:281-286 | the loop appends the record's non-None value of every field to `seen_values` |
| Validation.ValidateRecords | backend/services/validation_service.py:253-294 | the record loop computes one result per record |
| Validation.RecordsResultsErrStays | backend/services/validation_service.py:268-292 | an exception for one record ends `validate_records` with it |
| Validation.RecordsResultsShape | backend/services/validation_service.py:288-292 | there is one result per record; each carries its index and is valid iff it has no errors |
| Validation.UniqueAgainstEarlier | backend/services/validation_service.py:270-276 | with the cross-record check, record i is compared with exactly the non-None values earlier records hold in that field |
| Validation.ArmedUniqueRaises | backend/services/validation_service.py:222 | once uniqueness is checked across records, every armed unique rule raises as written |
| Validation.ArmedRuleRaises | backend/services/validation_service.py:222 | a unique rule carrying `existing_values` raises as written |
| Validation.ValidCount | backend/services/validation_service.py:299 | the valid count never exceeds the number of results |
| Validation.CountEntries | backend/services/validation_service.py:305-308 | one result's errors add their count to each named field |
| Validation.Summarize | backend/services/validation_service.py:296-316 | the summary has the total and the valid count, and invalid is their difference; a field is counted iff some report names it, with the sum of its errors |
| Validation.ReportedStep | backend/services/validation_service.py:304-308 | one more result names its own fields besides the earlier ones |
| Validation.ErrorCountStep | backend/services/validation_service.py:304-308 | one more result adds its own errors to each field's count |
| Validation.ErrorCountUnreported | backend/services/validation_service.py:304-308 | a field no report names has no errors counted |
| Validation.ValidCountAll | backend/services/validation_service.py:298-300 | the valid count equals the total iff every result is valid |
| Masking.FirstNonText | backend/services/masking_service.py:120 | the index `''.join` reports is that of the first piece that is not a string, every earlier piece being one |
| Masking.JoinText | backend/services/masking_service.py:120 | `''.join` succeeds exactly when every piece is a string |
| Masking.MaskStrategy | backend/services/masking_service.py:111-120 | the character list overwritten for i in range(start, min(end, len)) (negative indexes from the end, an index below -len raising IndexError, a non-integer bound raising TypeError) equals `MaskText` |
| Masking.ConcatSingles | backend/services/masking_service.py:117-120 | one-character pieces join back to a string of the same length, character by character |
| Masking.MaskPositions | backend/services/masking_service.py:111-120 | with a one-character mask and a start of 0 or more, the masked text keeps the length, holds the mask character exactly at positions start ≤ k < min(end, len) and the original character elsewhere |
| Masking.MaskCharNotText | backend/services/masking_service.py:117-120 | a mask_char that is not a string makes the join fail once a position is covered |
| Masking.PyPrefix | backend/services/masking_service.py:132 | `hashed[:length]` is a prefix of the digest, of length min(length, len) for a non-negative length |
| Masking.HashIsDigestPrefix | backend/services/masking_service.py:122-132 | the hash strategy returns a prefix of the sha256 digest when 'sha256' is asked for and of the md5 digest otherwise; with neither option given, the first 8 hex characters of the md5 digest |
| Masking.TruncateShape | backend/services/masking_service.py:134-139 | a text no longer than `length` is kept; a longer one becomes its first `length` characters followed by the suffix ('...' by default) |
| Masking.MaskValuePassThrough | backend/services/masking_service.py:87-109 | None stays None, and a strategy other than the seven returns the value itself (not its text) |
| Masking.ReplaceAndNullIgnoreValue | backend/services/masking_service.py:141-154 | replace returns the replacement ('***' by default) and null the null_value (None by default), whatever non-None value is masked |
| Masking.ShufflePermutes | backend/services/masking_service.py:145-150 | shuffle returns a permutation of the characters of str(value) |
| Masking.PartialWithoutPattern | backend/services/masking_service.py:156-164 | without a truthy pattern and replacement, partial returns str(value) unchanged |
| Masking.CallMaskValue | backend/services/masking_service.py:87 | a keyword that also names a positional parameter (self, value, strategy) raises TypeError; otherwise the call is `mask_value` with those options |
| Masking.MaskPreset | backend/services/masking_service.py:29-77 | every preset rule lists 'strategy' as its first key |
| Masking.PresetsRaise | backend/services/masking_service.py:166-172 | an unknown preset name keeps the value; every known preset raises "got multiple values for argument 'strategy'" |
| Masking.PresetKeys | backend/services/masking_service.py:29-77 | no preset has a key `self` or `value` except `password`, whose keys are strategy, value and description |
| Masking.WithoutStrategy | backend/services/masking_service.py:172 | dropping 'strategy' from a rule keeps every other key and its value |
| Masking.PresetsApplyOnce | backend/services/masking_service.py:166-172 | with the strategy given once, every preset but `password` masks with its own strategy and remaining options; `password` still binds `value` twice |
| Masking.AddressPresetTruncates | backend/services/masking_service.py:60-65 | the address preset, strategy given once, cuts a text longer than 10 to its first 10 characters and '***', where the code as written raises |
| Masking.RuleStrategy | backend/services/masking_service.py:186-199 | a non-preset rule naming its strategy raises TypeError in `mask_record`; a rule binding nothing twice masks with 'mask' |
| Masking.RuleStrategyOnce | backend/services/masking_service.py:193-199 | with the strategy given once, a rule without `self`/`value` keys masks with its named strategy ('mask' by default) and the rest of the rule as options |
| Masking.MaskedRecordErrStays | backend/services/masking_service.py:186-199 | once a rule raises, `mask_record` raises that error whatever rules follow |
| Masking.MaskRecord | backend/services/masking_service.py:174-201 | the copy assigned rule by rule equals `MaskedRecord`, stopping at the first raising rule |
| Masking.MaskedRecordKeeps | backend/services/masking_service.py:184-201 | the masked record has the original keys in order, and a field no rule names keeps its value |
| Masking.MaskedRecordOk | backend/services/masking_service.py:186-199 | with one rule per field, the record masks without error iff every present field masks its original value without error |
| Masking.MaskedRecordField | backend/services/masking_service.py:186-199 | with one rule per field, each present field holds its rule's masking of the original value |
| Masking.MaskedRecordsElementwise | backend/services/masking_service.py:203-205 | `mask_records` succeeds iff every record does, and then returns the records masked one by one, in order |
| Webhooks.Events | backend/models/webhook.py:49-54 | `get_events` is the decoded column, or [] when the column is empty or does not decode |
| Webhooks.Headers | backend/models/webhook.py:60-65 | `get_headers` is the decoded column, or {} when the column is empty or does not decode |
| Webhooks.RecordTrigger | backend/models/webhook.py:71-83 | a delivery adds one to the trigger count and to the success or the failure count, stamps the time and status, and changes nothing else |
| Webhooks.RecordTriggerKeepsBalance | backend/models/webhook.py:71-83 | every delivery is counted once, as a success or as a failure, so triggers = successes + failures is preserved |
| Webhooks.ActiveForExactly | backend/models/webhook.py:112-115 | `get_active_webhooks_for_event` fails iff some row's test raises; otherwise it lists, in table order, exactly the rows that are the user's, active and listening to the event |
| Webhooks.InactiveNeverListens | backend/models/webhook.py:112-115 | an inactive row, or another user's, is never listed, whatever its events |
| Webhooks.ListedEventListens | backend/models/webhook.py:112-115 | an active row whose events decode to a list of names listens exactly to those names |
| WebhookService.FirstUnsupported | backend/services/webhook_service.py:51-53 | the event reported is the first one not among the eight supported events; none is reported iff all are supported |
| WebhookService.CreateError | backend/services/webhook_service.py:50-57 | `create_webhook` is refused iff an event is unsupported or the URL starts with neither http:// nor https://, the events checked first |
| WebhookService.UpdateError | backend/services/webhook_service.py:102-113 | an update is refused iff a given URL is not http(s) or a given event list holds an unsupported event |
| WebhookService.ChangedKeepsAccounting | backend/services/webhook_service.py:99-122 | an update never touches the uuid, the owner or the delivery counters and status, and applying it twice is applying it once |
| WebhookService.ChangedOnlyPresent | backend/services/webhook_service.py:99-122 | a key absent from the update leaves its column alone; an empty update leaves the row as it was |
| WebhookService.Toggled | backend/services/webhook_service.py:143 | toggling flips `is_active` and nothing else |
| WebhookService.ToggleTwice | backend/services/webhook_service.py:137-146 | two toggles restore the row |
| WebhookService.Outcome | backend/services/webhook_service.py:178-188 | a delivery succeeds iff the response status is 2xx; the message is `HTTP <status>`, `请求超时` on a timeout, or the request error's text |
| WebhookService.OutgoingHeadersShape | backend/services/webhook_service.py:159-170 | a stored header dict always gets Content-Type and the timestamp, the signature exactly when a secret is set, and keeps its other headers |
| WebhookService.EventResultsErrStays | backend/services/webhook_service.py:203-210 | once a delivery raises, `trigger_event` raises that error whatever webhooks follow |
| WebhookService.EventResultsOnePerWebhook | backend/services/webhook_service.py:203-212 | one result per listed webhook, in order, naming it and carrying its delivery's outcome |
| WebhookService.WebhookStore.Find | backend/services/webhook_service.py:81-86 | `get_webhook` returns the first row with the uuid when it is the user's, and nothing when no row with that uuid is the user's |
| WebhookService.WebhookStore.CreateWebhook | backend/services/webhook_service.py:38-72 | a refused creation returns its error and stores nothing; otherwise exactly one new row (active, no deliveries yet, method upper-cased) is appended |
| WebhookService.WebhookStore.UpdateWebhook | backend/services/webhook_service.py:88-126 | an unknown or foreign uuid gives `Webhook 不存在` and a refused update its error, both storing nothing; otherwise only that row changes, to `Changed` |
| WebhookService.WebhookStore.DeleteWebhook | backend/services/webhook_service.py:128-135 | an unknown or foreign uuid is refused with `Webhook 不存在`; otherwise exactly that row is removed |
| WebhookService.WebhookStore.ToggleWebhook | backend/services/webhook_service.py:137-146 | an unknown or foreign uuid is refused; otherwise only that row changes, to its toggle |
| WebhookService.WebhookStore.TriggerWebhook | backend/services/webhook_service.py:156-188 | the outcome of the request is returned and booked on that row alone; a delivery that raises books nothing |
| WebhookService.WebhookStore.TriggerEvent | backend/services/webhook_service.py:190-212 | every active webhook of the user listening to the event is triggered in table order with the event payload, one result each; listed rows book their outcome and no other row changes |
| WebhookService.WebhookStore.TriggerAll | backend/services/webhook_service.py:203-211 | the loop over the listed rows returns `EventResults` and books each listed row's delivery |
| WebhookService.WebhookStore.constructor | backend/services/webhook_service.py:19-20 | the store starts from the given webhook rows |
| ApiKeys.CleanPieces | backend/models/api_key.py:52-54 | the pieces kept are no more than those split, each the trimmed form of one of them and never empty |
| ApiKeys.CleanPieceSource | backend/models/api_key.py:52-54 | every permission read back is the trimmed form of some split piece, and not empty |
| ApiKeys.CleanPiecesKeeps | backend/models/api_key.py:52-54 | pieces that are non-empty and already trimmed are all kept, unchanged and in order |
| ApiKeys.PermissionRoundTrip | backend/models/api_key.py:52-59 | writing a list of names (each non-empty, without a comma and without surrounding whitespace) through the setter and reading it back through the getter gives the same list |
| ApiKeys.PermissionTextSplits | backend/models/api_key.py:57-59 | the joined column splits on ',' back into the names written |
| ApiKeys.PermissionListStable | backend/models/api_key.py:52-59 | whatever the getter reads can be written and read again unchanged |
| ApiKeys.SplitPiecesHaveNoSeparator | backend/models/api_key.py:54 | no piece of a split holds the separator |
| ApiKeys.StripIdempotent | backend/models/api_key.py:54 | stripping twice is stripping once |
| ApiKeys.StripWithin | backend/models/api_key.py:54 | a character absent from a text is absent from its stripped form |
| ApiKeys.HasPermissionExactly | backend/models/api_key.py:73-78 | a key listing 'admin' has every permission; otherwise it has exactly the permissions it lists |
| ApiKeys.ValidityCases | backend/models/api_key.py:62-71 | a key is valid iff it is active and has no expiry or `now` is not past it; an expired key is never valid |
| ApiKeys.RecordUsage | backend/models/api_key.py:80-86 | one more call stamped at `now`; the IP is replaced only when a non-empty one is given; nothing else changes |
| ApiKeys.GenerateKey | backend/models/api_key.py:105-120 | the key is 'df_' and the random part, its prefix its first 12 characters, its hash the sha256 of the whole key |
| ApiKeys.GeneratedKeyLayout | backend/models/api_key.py:105-120 | for 32 hex digits from `token_hex(16)` the key has 35 characters and its prefix is 'df_' and the first nine digits |
| ApiKeys.FirstWithHash | backend/models/api_key.py:126 | the row found is the first with that hash; none is found iff no row has it |
| ApiKeys.VerifyKey | backend/models/api_key.py:123-130 | a key verifies only to a valid row holding its hash; it fails only when the first row with its hash is not valid, or none has it |
| ApiKeyService.FilterPermissions | backend/services/api_key_service.py:37-38 | the filtered list keeps only read, write and admin |
| ApiKeyService.FilterPermissionsExactly | backend/services/api_key_service.py:37-38 | the filter keeps exactly the valid names, each as often as it was given |
| ApiKeyService.FilterPermissionsIdempotent | backend/services/api_key_service.py:37-38 | filtering a filtered list changes nothing |
| ApiKeyService.CreatePermissions | backend/services/api_key_service.py:33-40 | the stored list is never empty and only valid: ['read'] when none is given or none is valid, otherwise the valid names given |
| ApiKeyService.ValidPermissionStored | backend/services/api_key_service.py:37 | a valid name is one the permission column holds unchanged |
| ApiKeyService.CreatePermissionsReadBack | backend/services/api_key_service.py:33-54 | the list `create_key` writes is the list the new key reads back |
| ApiKeyService.NewKey | backend/services/api_key_service.py:43-55 | the inserted row has the given owner, name, project and expiry, the generated prefix and hash, the creation time, is active and unused, and reads back the created permissions |
| ApiKeyService.KeyChanged | backend/services/api_key_service.py:97-110 | the update assigns the given name, activity and expiry; a permission list with no valid name is ignored, otherwise its valid names are stored; nothing else changes |
| ApiKeyService.KeyChangedKeepsIdentity | backend/services/api_key_service.py:97-110 | an update never touches the key material, the owner or the usage counters, and applying it twice is applying it once |
| ApiKeyService.FirstWithUuid | backend/models/api_key.py:133-135 | `find_by_uuid` returns the first row with the uuid, and none exactly when no row has it |
| ApiKeyService.OwnedRow | backend/services/api_key_service.py:59-64 | the service acts on the first row with the uuid only when it is the user's |
| ApiKeyService.GuardError | backend/services/api_key_service.py:90-95 | the guard passes iff the row exists and is the user's; `密钥不存在` iff no row has the uuid, the operation's refusal otherwise |
| ApiKeyService.MatchingKeys | backend/services/api_key_service.py:72-79 | every row kept passes the filters: the user's, of the project when a non-zero one is given, active unless inactive ones are asked for |
| ApiKeyService.MatchingKeysExactly | backend/services/api_key_service.py:72-79 | a row is kept exactly when it passes the filters |
| ApiKeyService.ListKeys | backend/services/api_key_service.py:66-81 | the listing holds the matching rows, each as often as in the table (a permutation of them) |
| ApiKeyService.ListKeysExactly | backend/services/api_key_service.py:66-81 | a row is listed exactly when it passes the filters |
| ApiKeyService.ListKeysNewestFirst | backend/services/api_key_service.py:81 | the listing is ordered by creation time, newest first |
| Sorting.SortBySorted | backend/services/api_key_service.py:81 | helper for ordered queries: sorting by a rank yields ascending ranks; its contract keeps the multiset of rows |
| ApiKeyService.VerifyFindsRow | backend/services/api_key_service.py:140-142 | a key whose hash is one row's alone verifies to that row exactly while it is valid |
| ApiKeyService.KeyStore.GetKey | backend/services/api_key_service.py:59-64 | `get_key` returns the row with the uuid exactly when it is the user's |
| ApiKeyService.KeyStore.CreateKey | backend/services/api_key_service.py:20-57 | one row, `NewKey`, is appended; the full key is returned and only its hash stored |
| ApiKeyService.KeyStore.UpdateKey | backend/services/api_key_service.py:83-113 | a missing or foreign key is refused and nothing changes; otherwise only that row changes, to `KeyChanged` |
| ApiKeyService.KeyStore.DeleteKey | backend/services/api_key_service.py:115-125 | a missing or foreign key is refused and nothing changes; otherwise exactly that row is removed |
| ApiKeyService.KeyStore.RevokeKey | backend/services/api_key_service.py:127-138 | a missing or foreign key is refused; otherwise the row stays but is inactive, and no other row changes |
| ApiKeyService.KeyStore.RegenerateKey | backend/services/api_key_service.py:246-270 | a missing or foreign key is refused; otherwise only that row's prefix and hash are replaced by the new key's, which is returned |
| ApiKeyService.KeyStore.RecordKeyUsage | backend/services/api_key_service.py:144-156 | the row's counters move as `record_usage` says and no other row changes |
| ApiKeyService.RevokedNeverVerifies | backend/services/api_key_service.py:127-142 | a revoked row is never returned by `verify_key`, whatever key is presented |
| ApiKeyService.RegeneratedKeyVerifies | backend/services/api_key_service.py:246-270 | after regeneration the new key verifies to the row while it is valid and the old key no longer verifies |
| ApiKeyService.CreatedKeyVerifies | backend/services/api_key_service.py:20-57 | a freshly created key verifies to its row until it expires |
| ApiKeyService.KeyStore.constructor | backend/services/api_key_service.py:17-18 | the store starts from the given key rows |
| AuthMiddleware.TokenFromHeader | backend/middleware/auth.py:18-28 | a token read from the header is a non-empty word without whitespace |
| AuthMiddleware.TokenFromHeaderExactly | backend/middleware/auth.py:18-28 | a token is read exactly when the header splits into two words, the first 'bearer' in any case, and the token is the second |
| AuthMiddleware.BearerHeaderYieldsToken | backend/middleware/auth.py:18-28 | `<scheme> <token>` with the scheme 'bearer' in any case yields the token |
| AuthMiddleware.VerifyToken | backend/middleware/auth.py:31-57 | an expired token gives `Token 已过期` and an undecodable one `无效的 Token`; a token verifies only to an active user |
| AuthMiddleware.WrongTypeRefused | backend/middleware/auth.py:38-39 | a token of another type is refused with `无效的 Token 类型`, whoever it names |
| AuthMiddleware.VerifyTokenAccepts | backend/middleware/auth.py:41-52 | a well-typed token naming an existing user verifies to that user when active and gives `账户已被禁用` otherwise |
| AuthMiddleware.LoginRequired | backend/middleware/auth.py:73-91 | the request passes iff a token is present and verifies as an access token, carrying that user; every refusal is a 401, `未提供认证信息` without a token |
| AuthMiddleware.AdminRequired | backend/middleware/auth.py:94-106 | the login guard's refusal comes first; a logged-in user passes iff an administrator, and is otherwise refused with 403 `需要管理员权限` |
| AuthMiddleware.OptionalUser | backend/middleware/auth.py:60-70 | the current user is the one the login guard would admit, and no user when it would refuse |
| AuthMiddleware.Recent | backend/middleware/auth.py:239-242 | the entries kept are entries of the key with `now - ts < window` |
| AuthMiddleware.Admit | backend/middleware/auth.py:239-251 | a call is allowed iff the counts still inside the window sum to less than the limit; the key then keeps those entries plus (now, 1), and only those when refused |
| AuthMiddleware.RateLimiter.IsAllowed | backend/middleware/auth.py:225-251 | the decision is `Admit`'s, the key's entries become `Admit`'s and no other key changes |
| AuthMiddleware.Replay | backend/middleware/auth.py:225-251 | one decision per call of the replayed sequence |
| AuthMiddleware.RecentLater | backend/middleware/auth.py:239-242 | pruning at one time and then at a later one is pruning at the later one |
| AuthMiddleware.TotalCountsEntries | backend/middleware/auth.py:245 | with every count 1, the sum is the number of entries |
| AuthMiddleware.ReplayKeepsRecentAccepted | backend/middleware/auth.py:225-251 | with a positive window and calls in time order, the limiter holds exactly the accepted calls still inside the window |
| AuthMiddleware.ReplayBound | backend/middleware/auth.py:225-251 | for any call times, a key never holds more than `limit` entries |
| AuthMiddleware.AdmitBound | backend/middleware/auth.py:239-251 | an accepted call leaves at most `limit` entries; a refused one leaves no more entries than before |
| AuthMiddleware.ReplayCountsOne | backend/middleware/auth.py:239-251 | every entry the limiter keeps has count 1 |
| AuthMiddleware.AtMostLimitPerWindow | backend/middleware/auth.py:225-251 | with a positive window and calls in time order, at most `limit` accepted calls fall within the window ending at the latest call |
| AuthMiddleware.RateLimiter.constructor | backend/middleware/auth.py:222-223 | a new limiter has seen no requests |
| AuthService.FirstUser | backend/services/auth_service.py:46-51 | `filter_by(...).first()` finds the first user the filter keeps, and none exactly when it keeps nobody |
| AuthService.RegisterError | backend/services/auth_service.py:31-51 | each refusal of `register` is reported exactly when its check is the first to fail: username under 3 or over 50 characters, no '@' in the email, password under 6, username taken, email taken |
| AuthService.RegisterAcceptsExactly | backend/services/auth_service.py:31-51 | registration passes exactly when the username has 3 to 50 characters, the email an '@', the password at least 6, and no user has that username or that email |
| AuthService.NewUser | backend/services/auth_service.py:54-56 | the new user carries the given name, email and password hash, is active, not an administrator and has never logged in |
| AuthService.DefaultProject | backend/services/auth_service.py:59-65 | the default project is '<username>的项目', described '默认项目', owned by the user, who is its one 'owner' member |
| AuthService.LoginTarget | backend/services/auth_service.py:77-80 | login looks the user up by username first and by email only when no username matches |
| AuthService.LoginError | backend/services/auth_service.py:74-89 | an empty username or password is refused first; login passes exactly when a user is found, active, and the password checks against its hash |
| AuthService.IssueTokens | backend/services/auth_service.py:94-104 | a successful login returns an access and a refresh token for the user, type 'Bearer' and the access lifetime |
| AuthService.AccessTokenKeepsType | backend/services/auth_service.py:106-155 | an issued access token verifies as an access token for its user (refused if disabled) and never as a refresh token |
| AuthService.RefreshTokenKeepsType | backend/services/auth_service.py:118-155 | an issued refresh token verifies as a refresh token for its user and never as an access token |
| AuthService.RefreshAccessToken | backend/services/auth_service.py:157-172 | a token that fails to verify as a refresh token gives its error; otherwise a new access token for its user |
| AuthService.AccessTokenCannotRefresh | backend/services/auth_service.py:157-172 | an access token never buys a new access token |
| AuthService.ServiceLoginRequired | backend/services/auth_service.py:194-215 | no header gives `未提供认证信息` and a malformed one `认证格式错误`, both 401 |
| AuthService.LoginGuardsAgree | backend/services/auth_service.py:194-215 | the service's and the middleware's login guards admit the same requests with the same user, and both refuse with 401 |
| AuthService.ServiceAdminRequired | backend/services/auth_service.py:219-228 | the service's admin guard admits exactly what the middleware's admits |
| AuthService.AuthStore.Register | backend/services/auth_service.py:26-67 | a refused registration returns its error and adds nothing; otherwise exactly the new user and its default project are appended |
| AuthService.AuthStore.Login | backend/services/auth_service.py:69-104 | a refused login returns its error and changes nothing; otherwise only the user's last login is set, and the tokens are issued for the updated row |
| AuthService.RegisteredUserLogsIn | backend/services/auth_service.py:26-104 | a user who has just registered is found by the username and can log in with the password whose hash was stored |
| AuthService.UserByUuidFinds | backend/services/auth_service.py:143 | with unique uuids, the `sub` claim's lookup finds the row carrying it |
| AuthService.AuthStore.constructor | backend/services/auth_service.py:19-20 | the store starts from the given users and projects |
| Templates.Fields | backend/models/template.py:85-90 | the `fields` getter is the decoded column, or [] when it is empty or does not decode |
| Templates.AddRating | backend/models/template.py:132-140 | a score outside 1..5 raises the rating error; otherwise the score joins the sum, the count grows by one and the rating is sum over count, nothing else changing |
| Templates.UpdateRating | backend/models/template.py:142-149 | only the new score is checked; the sum swaps the old score for the new one, the count stays, and the rating is sum over count, or 0 with no ratings |
| Templates.AddRatingConsistent | backend/models/template.py:132-140 | adding an accepted score keeps the sum within one to five points per rating and the rating equal to sum over count, hence within 1..5 |
| Templates.UpdateRatingConsistent | backend/models/template.py:142-149 | replacing a score that was in the sum keeps the rating columns consistent |
| Templates.AverageWithin | backend/models/template.py:139 | an average of scores in 1..5 lies in 1..5 |
| Templates.IncrementDownloads | backend/models/template.py:127-130 | exactly one more download and nothing else changes |
| Templates.DecrementFloored | backend/models/template.py:155 | `max(0, n - 1)`: one less, never below 0 |
| Templates.Released | backend/models/template.py:154-155 | giving back the held tags keeps the tag table's names and length |
| Templates.ReleasedOnce | backend/models/template.py:154-155 | with each tag held once, a held tag's count goes down by one (floored at 0) and every other count stays |
| Templates.FindTag | backend/models/template.py:41 | the tag found is the first with that name; none is found iff no tag has it |
| Templates.GetOrCreate | backend/models/template.py:39-45 | the existing tag with that name, else a new tag with usage 0 appended to the table |
| Templates.Attached | backend/models/template.py:159-162 | attaching keeps the existing tags' names and holds, per name in order, a tag named by its trimmed form |
| Templates.Occurrences | backend/models/template.py:159-162 | the number of names trimming to a tag name is at most the number of names |
| Templates.AttachedCounts | backend/models/template.py:159-162 | attaching keeps tag names unique, and each tag gains exactly one use per name that trims to it |
| Templates.OccurrencesNamed | backend/models/template.py:159-162 | a name no tag carries after attaching was never among the trimmed names |
| Templates.TemplateDb.GetOrCreateTag | backend/models/template.py:39-45 | `get_or_create` on the tag table is `GetOrCreate`, and nothing but the tag table changes |
| Templates.TemplateDb.SetTags | backend/models/template.py:151-164 | every held tag gives back one use, then the first ten names, trimmed, are found or created, counted and attached in order; only the tag table and that template's tags change |
| Templates.ReleaseAll | backend/models/template.py:154-155 | the loop giving back one use per held tag computes `Released` |
| Templates.AttachAll | backend/models/template.py:159-162 | the loop over the names computes `Attached` |
| Templates.TemplateDb.constructor | backend/models/template.py:24-25 | new tables of templates, tags, ratings, favourites and downloads are empty |
| TemplateMarket.FindByUuid | backend/models/template.py:167-169 | `find_by_uuid` finds a row with that uuid, and none exactly when no row has it |
| TemplateMarket.CountAppend | backend/services/template_market_service.py:205-210 | appending a row adds one to the count of exactly the selections it meets |
| TemplateMarket.CountUpdate | backend/services/template_market_service.py:240-243 | replacing a row moves each count by what the old and the new row contribute |
| TemplateMarket.CountRemove | backend/services/template_market_service.py:296-298 | removing a row takes its contribution off each count |
| TemplateMarket.ScoreSumAppend | backend/services/template_market_service.py:248-254 | a new rating row adds its score to its template's sum only |
| TemplateMarket.ScoreSumUpdate | backend/services/template_market_service.py:238-243 | a re-rated row swaps its old score for the new one in its template's sum |
| TemplateMarket.ScoreSumBounds | backend/services/template_market_service.py:225-226 | with every score in 1..5, a template's sum lies between one and five points per rating row |
| TemplateMarket.TalliedRatingsBounded | backend/services/template_market_service.py:225-256 | with the rating columns tallied from scores in range, each template's sum lies between its count and five times its count |
| TemplateMarket.FindRating | backend/services/template_market_service.py:233-236 | the user's rating row of the template, and none exactly when there is no such row |
| TemplateMarket.FindFavorite | backend/services/template_market_service.py:291-294 | the user's favourite row of the template, and none exactly when there is no such row |
| TemplateMarket.Rated | backend/services/template_market_service.py:232-256 | the tables after an accepted rating (a re-rating swaps the user's score, a first rating appends a row); the number of templates is kept, the tallies are stated by `RatedKeepsTally` |
| TemplateMarket.RatedKeepsTally | backend/services/template_market_service.py:232-256 | a rating keeps every template's rating count equal to its number of rating rows and its sum equal to their scores, one row per (template, user), scores in range |
| TemplateMarket.RatedRow | backend/services/template_market_service.py:232-256 | after a rating, each template's count and sum are those of its rating rows |
| TemplateMarket.Toggle | backend/services/template_market_service.py:296-308 | a toggle appends the user's favourite when absent and removes exactly that one otherwise |
| TemplateMarket.Toggled | backend/services/template_market_service.py:296-311 | the flag returned says whether the user now favours the template, which is iff they did not before |
| TemplateMarket.ToggledKeepsTally | backend/services/template_market_service.py:296-311 | a toggle keeps every favourite count equal to the template's favourite rows, one per (template, user) |
| TemplateMarket.ToggledRow | backend/services/template_market_service.py:296-311 | after a toggle, each template's favourite count is its number of favourite rows |
| TemplateMarket.ToggleTwiceRestoresCounts | backend/services/template_market_service.py:278-311 | toggling twice restores every favourite count |
| TemplateMarket.TwiceSameRows | backend/services/template_market_service.py:278-311 | toggling the same favourite twice leaves each template's number of favourite rows as it was |
| TemplateMarket.Used | backend/services/template_market_service.py:204-213 | the tables after a use (one download record, one more download); the number of templates is kept, the tally is stated by `UsedKeepsTally` |
| TemplateMarket.UsedKeepsTally | backend/services/template_market_service.py:204-213 | every use keeps each template's download count equal to its download records |
| TemplateMarket.Edited | backend/services/template_market_service.py:60-70 | the update assigns exactly the keys present and never touches identity, author, tags or counters |
| TemplateMarket.EditedIdempotent | backend/services/template_market_service.py:60-70 | editing twice with the same keys is editing once; no keys leave the row as it was |
| TemplateMarket.GuardError | backend/services/template_market_service.py:53-58 | `模板不存在` iff no row has the uuid, the operation's refusal iff the row is another author's, and no error iff it is the user's |
| TemplateMarket.NewTemplate | backend/services/template_market_service.py:31-39 | the new row holds `fields or []` encoded, zero counters and rating, no tags, not official, and consistent rating columns |
| TemplateMarket.CreateTemplate | backend/services/template_market_service.py:20-44 | the new row is appended, then its tags set when any are given; the rating, favourite and download tables are untouched |
| TemplateMarket.UpdateTemplate | backend/services/template_market_service.py:46-75 | a refused update returns its error and changes nothing; otherwise only that row changes, by `Edited`, with `set_tags` applied when tags are given |
| TemplateMarket.DeleteTemplate | backend/services/template_market_service.py:77-87 | a refused delete changes nothing; otherwise exactly that row is removed |
| TemplateMarket.UseTemplate | backend/services/template_market_service.py:193-215 | an unknown uuid gives None and changes nothing; otherwise one download record is appended and that template's downloads grow by one |
| TemplateMarket.RateTemplate | backend/services/template_market_service.py:217-256 | the score is checked before the lookup; an accepted rating updates the tables by `Rated` and nothing else |
| TemplateMarket.ToggleFavorite | backend/services/template_market_service.py:278-311 | an unknown uuid gives (false, false) and changes nothing; otherwise the tables change by `Toggled` and (true, now favoured) is returned |
| InMemoryTemplates.Defaults | backend/services/template_service.py:17-82 | the store starts with four templates, default-1 to default-4, all stamped with the seed time, the first two in the user and order categories |
| InMemoryTemplates.FirstWithId | backend/services/template_service.py:90 | the first template with the id, and none exactly when no template has it |
| InMemoryTemplates.InCategory | backend/services/template_service.py:94 | the filter keeps exactly the templates of that category |
| InMemoryTemplates.InCategoryConcat | backend/services/template_service.py:94 | the category filter distributes over concatenation, so kept templates stay in store order |
| InMemoryTemplates.WithoutId | backend/services/template_service.py:128 | the filter keeps exactly the templates with another id |
| InMemoryTemplates.WithoutIdShrinks | backend/services/template_service.py:127-129 | removal shortens the list exactly when some template had the id, and leaves it as it was otherwise |
| InMemoryTemplates.WithoutIdConcat | backend/services/template_service.py:128 | removal keeps the order of the rest |
| InMemoryTemplates.Created | backend/services/template_service.py:98-107 | the new template takes name, description, category and fields from the request, defaulting to '', '', 'other' and [], with both timestamps equal to now |
| InMemoryTemplates.Updated | backend/services/template_service.py:117-121 | each of the four keys is taken from the request when present and kept otherwise; the id and creation time stay and `updatedAt` is now |
| InMemoryTemplates.UpdatedIdempotent | backend/services/template_service.py:117-121 | updating twice with the same data and time is updating once; an empty update only refreshes the timestamp |
| InMemoryTemplates.TemplateService.constructor | backend/services/template_service.py:13-15 | the store starts with exactly the four defaults |
| InMemoryTemplates.TemplateService.GetById | backend/services/template_service.py:88-90 | `get_by_id` is the first template with that id, and None exactly when there is none |
| InMemoryTemplates.TemplateService.GetByCategory | backend/services/template_service.py:92-94 | `get_by_category` is the store's templates of that category, in order |
| InMemoryTemplates.TemplateService.Create | backend/services/template_service.py:96-109 | exactly one template, `Created`, is appended and returned |
| InMemoryTemplates.TemplateService.Update | backend/services/template_service.py:111-123 | an unknown id gives None and no change; otherwise only the first template with that id changes, to `Updated` |
| InMemoryTemplates.TemplateService.Delete | backend/services/template_service.py:125-129 | every template with that id is removed, the rest kept in order; the result is true iff one was removed |
| SystemSettings.GetValue | backend/models/system_setting.py:25-40 | no text reads None; 'integer' reads `int(text)`, raising on text that is not an integer; 'boolean' reads true iff the lower-cased text is true, 1 or yes; 'json' reads the parsed value, or the text itself when it does not parse; any other type reads the text |
| SystemSettings.StoredText | backend/models/system_setting.py:42-49 | a list or dict under 'json' is stored as its JSON text; under 'boolean' any value is stored as 'true' or 'false' by its truthiness; otherwise `str(value)`, or no text for None |
| SystemSettings.BooleanRoundTrip | backend/models/system_setting.py:25-49 | a boolean written by `set_value` reads back as the same boolean |
| SystemSettings.IntegerRoundTrip | backend/models/system_setting.py:25-49 | an integer written by `set_value` under 'integer' reads back as the same integer |
| SystemSettings.StringRoundTrip | backend/models/system_setting.py:25-49 | a string or None written under a plain type reads back unchanged |
| SystemSettings.JsonRoundTrip | backend/models/system_setting.py:25-49 | a list or dict written under 'json' reads back as itself whenever the parser inverts the encoder |
| SystemSettings.FindKey | backend/models/system_setting.py:65-67 | `get_by_key` finds a row with the key, and none exactly when no row has it |
| SystemSettings.Rewritten | backend/models/system_setting.py:88-96 | an existing row takes the new type, text, category and visibility, and a new description only when it is non-empty |
| SystemSettings.Written | backend/models/system_setting.py:87-107 | `set_setting` rewrites the row with the key in place, or appends a new one, leaving the other rows alone |
| SystemSettings.WrittenKeepsKeys | backend/models/system_setting.py:83-107 | writing keeps keys unique, puts the key in the table with the new text, and leaves every other key where it was |
| SystemSettings.FindKeyAfterUpdate | backend/models/system_setting.py:88-96 | rewriting a row under its own key moves no key |
| SystemSettings.FindKeyAfterAppend | backend/models/system_setting.py:97-106 | an appended row is found only for its own key, and only when no earlier row has it |
| SystemSettings.SettingsTable.SetSetting | backend/models/system_setting.py:83-107 | the table becomes `Written` and the row returned is the one now stored under the key |
| SystemSettings.SettingsTable.constructor | backend/models/system_setting.py:14-15 | a new settings table is empty |
| SettingsManagement.DefaultSettings | backend/services/settings_service.py:28-145 | the default table holds the fifteen entries of `DEFAULT_SETTINGS`, in dict order |
| SettingsManagement.DefaultSettingsTyped | backend/services/settings_service.py:28-145 | every default's value has the shape its declared type reads back as, and its category is one of `CATEGORIES` |
| SettingsManagement.DefaultSettingsSound | backend/services/settings_service.py:18-145 | the default table is sound: well typed, in listed categories, and every listed category has at least one default |
| SettingsManagement.FirstDefault | backend/services/settings_service.py:160-167 | `DEFAULT_SETTINGS.get(key)` finds a default iff the key is in the table, and the one found is paired with that key |
| SettingsManagement.ListingKeysConcat | backend/services/settings_service.py:199-219 | the keys of two concatenated listings are the keys of the first followed by those of the second |
| SettingsManagement.StoredListing | backend/services/settings_service.py:201-202 | the stored part of a category listing holds only stored (non-default) rows of that category, public when asked, and names every such stored row |
| SettingsManagement.DefaultListing | backend/services/settings_service.py:205-217 | the default part adds, for that category, exactly the defaults whose key is not already stored (public ones when asked), each marked as a default |
| SettingsManagement.PutOthers | backend/services/settings_service.py:230-240 | putting a key into a dict changes that key only |
| SettingsManagement.PublicDefaults | backend/services/settings_service.py:236-239 | filling in public defaults keeps every key already present and adds every public default |
| SettingsManagement.PublicStoredHas | backend/services/settings_service.py:232-235 | every stored public row appears in the public dict with its typed value |
| SettingsManagement.CategoryKeys | backend/services/settings_service.py:277-285 | the keys a category reset touches all come from the default table, and a category with a default yields at least one key |
| SettingsManagement.DeleteRemovesKey | backend/services/settings_service.py:256-263 | removing the row of a key from a table with unique keys leaves the key absent, keys unique and every other row present |
| SettingsManagement.SettingsService.constructor | backend/services/settings_service.py:28-145 | a new service holds the source's default table, which is sound |
| SettingsManagement.SettingsService.DefaultFor | backend/services/settings_service.py:160-167 | a default is found iff the table has the key, and it is that key's entry |
| SettingsManagement.SettingsService.GetSetting | backend/services/settings_service.py:158-167 | a stored key reads its typed value; otherwise a key with a default reads the default's value; otherwise the caller's default |
| SettingsManagement.SettingsService.MetadataFor | backend/services/settings_service.py:179-184 | each of type, category, description and public flag comes from the call when given, else from the default table, else 'string', 'general', no description and not public |
| SettingsManagement.SettingsService.SetSetting | backend/services/settings_service.py:176-197 | the table becomes the one `set_setting` writes with the resolved metadata, and the returned row is the one now stored under the key |
| SettingsManagement.SettingsService.SetThenGet | backend/services/settings_service.py:158-197 | reading a key just written gives the value back, when it has the shape of the type it was written under |
| SettingsManagement.SettingsService.SettingsByCategory | backend/services/settings_service.py:199-219 | every listed setting is of the requested category, and public when only public ones are asked for |
| SettingsManagement.SettingsService.SettingsByCategoryComplete | backend/services/settings_service.py:199-219 | a category listing names every default of the category (public ones when asked), stored or not, and every stored setting of it |
| SettingsManagement.SettingsService.AllSettings | backend/services/settings_service.py:221-228 | every group is a non-empty listing of a requested category equal to that category's own listing, and a success means every category listed |
| SettingsManagement.SettingsService.AllSettingsListed | backend/services/settings_service.py:221-228 | every non-empty category listing appears among the groups |
| SettingsManagement.SettingsService.AllCategoriesListed | backend/services/settings_service.py:221-228 | without `public_only` every category of `CATEGORIES` appears, since each one has defaults |
| SettingsManagement.SettingsService.PublicSettings | backend/services/settings_service.py:230-240 | the public dict has a key for every public default |
| SettingsManagement.SettingsService.PublicSettingsPreferStored | backend/services/settings_service.py:230-240 | a stored public value wins over its default |
| SettingsManagement.SettingsService.UpdateSettings | backend/services/settings_service.py:242-254 | the table becomes the one obtained by writing every pair in order, and the count is the number of pairs |
| SettingsManagement.SettingsService.AppliedAllKeys | backend/services/settings_service.py:242-254 | a batch update keeps keys unique and leaves every changed key in the table |
| SettingsManagement.SettingsService.DeleteSetting | backend/services/settings_service.py:256-263 | the deletion succeeds iff the key is stored; a missing key leaves the table unchanged with its message, a stored one has exactly its row removed |
| SettingsManagement.SettingsService.ResetToDefaultAsWritten | backend/services/settings_service.py:265-275 | a key without a default is refused with its message; every key with a default raises, because 'value' is passed twice |
| SettingsManagement.SettingsService.ResetToDefault | backend/services/settings_service.py:265-275 | as intended: a key without a default is refused and the table unchanged; otherwise the default is written with its own metadata |
| SettingsManagement.SettingsService.ResetRestoresDefault | backend/services/settings_service.py:265-275 | after the intended reset, reading the key gives the default's value |
| SettingsManagement.SettingsService.ResetCategoryAsWritten | backend/services/settings_service.py:277-285 | as written, the reset of a category succeeds (with 0) iff the category has no defaults |
| SettingsManagement.SettingsService.EveryCategoryResetRaises | backend/services/settings_service.py:277-285 | every listed category raises as written |
| SettingsManagement.SettingsService.ResetCategory | backend/services/settings_service.py:277-285 | as intended, each default of the category is reset in default-table order, the new table being exactly that sequence of resets of the old one; the count is the number of defaults of the category |
| SettingsManagement.SettingsService.ResetAllKeepsOthers | backend/services/settings_service.py:277-285 | resetting a list of keys keeps the keys unique and leaves every other key at the same row with the same contents |
| SettingsManagement.SettingsService.ResetAllRestores | backend/services/settings_service.py:277-285 | after resetting a list of keys, each key with a default reads back its default's value, even when a later key in the list is written too |
| SettingsManagement.SettingsService.AppliedKeepsGet | backend/services/settings_service.py:158-197 | writing one key does not change what any other key reads |
| SettingsManagement.SettingsService.ResetCategoryEffect | backend/services/settings_service.py:277-285 | after the intended category reset, every default of the category reads back its value and every setting outside it keeps its row |
| Codecs.EncodeChar | backend/models/datasource.py:76 | `str.encode()` writes each character as one to four UTF-8 bytes, one byte exactly for ASCII |
| Codecs.EncodeUtf8 | backend/models/datasource.py:76 | the UTF-8 bytes of a text are at least as many as its characters, and non-empty for non-empty text |
| Codecs.DecodeFirst | backend/models/datasource.py:84 | the strict decoder reads one character from one to four of the leading bytes, or refuses the sequence |
| Codecs.DecodeFirstEncodeChar | backend/models/datasource.py:76-84 | decoding the bytes of a character reads that character back and consumes exactly its bytes |
| Codecs.Utf8RoundTrip | backend/models/datasource.py:76-84 | `bytes.decode()` of what `str.encode()` wrote gives the text back |
| Codecs.SextetRoundTrip | backend/models/datasource.py:76-84 | every sextet's alphabet character reads back as that sextet |
| Codecs.EncodeTriple | backend/models/datasource.py:76 | three bytes become four characters of the base64 alphabet |
| Codecs.EncodeTail | backend/models/datasource.py:76 | a final one or two bytes become four characters of the alphabet or `=` padding |
| Codecs.EncodeBase64 | backend/models/datasource.py:76 | `b64encode` output is four characters per started group of three bytes, each in the alphabet or `=` |
| Codecs.DecodeQuad | backend/models/datasource.py:84 | a group of four characters decodes to one to three bytes, or is refused |
| Codecs.OctetsOfTriple | backend/models/datasource.py:76-84 | the four sextets of three bytes reassemble into those bytes |
| Codecs.QuadRoundTrip | backend/models/datasource.py:76-84 | a group written from three bytes decodes to those bytes |
| Codecs.TailRoundTrip | backend/models/datasource.py:76-84 | a padded final group decodes to the one or two bytes it was written from |
| Codecs.ShortRoundTrip | backend/models/datasource.py:76-84 | a byte string of one or two bytes survives `b64encode` then `b64decode` |
| Codecs.Base64RoundTrip | backend/models/datasource.py:76-84 | `b64decode` of what `b64encode` wrote gives the bytes back |
| DataSources.StoredPassword | backend/models/datasource.py:71-78 | an empty or missing password stores nothing; any other stores a non-empty base64 text whose length is a multiple of four |
| DataSources.ReadPassword | backend/models/datasource.py:80-85 | nothing stored (or empty text) reads None; a password read back comes from stored text that decodes |
| DataSources.PasswordRoundTrip | backend/models/datasource.py:71-85 | a non-empty password reads back as itself; an empty or missing one reads back as None |
| DataSources.StoredConfig | backend/models/datasource.py:95-100 | a falsy option stores nothing; a truthy one stores its JSON text |
| DataSources.ReadConfig | backend/models/datasource.py:88-92 | nothing stored (or empty text) reads `{}`; otherwise the parsed text |
| DataSources.ConfigRoundTrip | backend/models/datasource.py:88-115 | a truthy option reads back as itself when the parser inverts the encoder; a falsy one reads back as `{}` |
| DataSources.StatusUpdatedColumns | backend/models/datasource.py:143-152 | the status is set; a connection stamps the time, clears the error and counts one more connection; an error records its text; nothing else changes |
| DataSources.Scheme | backend/models/datasource.py:176-186 | a scheme exists exactly for mysql, postgresql and mongodb, and holds neither `@` nor `:` |
| DataSources.ConnectionString | backend/models/datasource.py:172-192 | a URL exists exactly for the four known types |
| DataSources.CredentialsOnlyWithUsername | backend/models/datasource.py:172-187 | a database URL contains `@` iff a username is set, when neither host nor database contain one |
| DataSources.ConnectionStringPrefix | backend/models/datasource.py:172-187 | a database URL starts with its scheme and `://`, then the username and `:` when one is set |
| DataSources.RestApiScheme | backend/models/datasource.py:188-190 | a REST API URL starts with https exactly when SSL is on |
| DataSources.BaseDict | backend/models/datasource.py:119-136 | `to_dict` always writes the same sixteen keys in order |
| DataSources.ToDict | backend/models/datasource.py:117-141 | a REST API source adds `api_config` (its parsed options) after the base keys and fails only when those do not parse; other types add nothing |
| DataSources.KeysConcat | backend/models/datasource.py:117-141 | the keys of two concatenated dicts are the keys of the first followed by those of the second |
| DataSources.ToDictHidesPassword | backend/models/datasource.py:117-141 | `to_dict` never has a `password` key, and has `api_config` exactly for a REST API source |
| DataSources.DataSource.constructor | backend/models/datasource.py:20-59 | a new row takes the column defaults: `disconnected`, both counters 0, no secrets, options, connection time or error |
| DataSources.DataSource.SetPassword | backend/models/datasource.py:70-78 | only the stored password changes, to its encoded form |
| DataSources.DataSource.GetPassword | backend/models/datasource.py:80-85 | reads the stored password as `ReadPassword` does |
| DataSources.DataSource.SetApiConfig | backend/models/datasource.py:94-100 | only the stored API options change, to their JSON text |
| DataSources.DataSource.SetSslConfig | backend/models/datasource.py:109-115 | only the stored SSL options change, to their JSON text |
| DataSources.DataSource.UpdateStatus | backend/models/datasource.py:143-152 | the row becomes the one `StatusUpdated` describes |
| DataSources.DataSource.RecordQuery | backend/models/datasource.py:154-157 | only the query count changes, by one |
| DataSourceService.CreateError | backend/services/datasource_service.py:36-43 | creation is refused iff the type is not one of the four known ones or the port lies outside 1..65535, and the type is checked first |
| DataSourceService.CreatedRowStores | backend/services/datasource_service.py:45-69 | the new source stores exactly what the setters would store, and reads back the password it was given (None when empty) and its truthy options |
| DataSourceService.UpdatedChangesOnlyPresent | backend/services/datasource_service.py:88-111 | an update changes only the columns whose key is present, the password only for a non-empty one; it fails exactly on a port out of range, and then nothing after the port is touched |
| DataSourceService.FindByUuid | backend/models/datasource.py:159-162 | the position found holds a source with that uuid, and no source has it when none is found |
| DataSourceService.AssignLeading | backend/services/datasource_service.py:89-94 | name, description and host are assigned where present, nothing else |
| DataSourceService.AssignTrailing | backend/services/datasource_service.py:100-111 | the columns after the port are assigned where present, the password only when non-empty |
| DataSourceService.NewDataSource | backend/services/datasource_service.py:45-69 | a fresh object holding the created row |
| DataSourceService.DataSourceTable.constructor | backend/services/datasource_service.py:16-17 | a new table holds no sources |
| DataSourceService.DataSourceTable.CreateDatasource | backend/services/datasource_service.py:19-72 | the error is the validation's; a refusal leaves the list unchanged, a success appends one fresh source holding the created row |
| DataSourceService.DataSourceTable.UpdateDatasource | backend/services/datasource_service.py:74-114 | an unknown uuid or a foreign source is refused and nothing changes; otherwise only that source changes, to the updated row, and the error is the port's |
| DataSourceService.DataSourceTable.DeleteDatasource | backend/services/datasource_service.py:116-126 | an unknown uuid or a foreign source is refused and the list unchanged; otherwise exactly that source is removed |
| DataSourceService.DataSourceTable.GetDatasource | backend/services/datasource_service.py:128-133 | a source is returned iff it has the uuid and belongs to the user, and it is that source |
| HistoryService.RunName | backend/services/history_service.py:40 | a given non-empty name is kept; otherwise the name is the default built from the row count; never empty |
| HistoryService.Bumped | backend/services/history_service.py:51-55 | the projects keep their keys; only the run's project (when given and non-zero) grows its generation count by the row count |
| HistoryService.FindById | backend/services/history_service.py:61 | the position found holds a record with that id, and no record has it when none is found |
| HistoryService.GetHistory | backend/services/history_service.py:59-69 | None for an unknown id; a record returned is the one with that id |
| HistoryService.GetHistoryUnchecked | backend/services/history_service.py:59-69 | without a (truthy) user id any existing record is returned, whoever owns it |
| HistoryService.Deleted | backend/services/history_service.py:131-144 | deletion succeeds iff the record exists and is the user's; a missing or foreign record gives its message and an unchanged table; a success removes one record |
| HistoryService.DeletedRemovesOnly | backend/services/history_service.py:131-144 | a deletion removes exactly the record with that id, keeps every other record and keeps ids unique |
| HistoryService.BatchDeleted | backend/services/history_service.py:146-161 | the successes are at most the ids given, and the table shrinks by exactly the successes |
| HistoryService.BatchDeletedLeaves | backend/services/history_service.py:146-161 | a batch keeps ids unique and removes only records of the batch; every id of the batch is gone or was never the user's |
| HistoryService.HistoryTable.constructor | backend/services/history_service.py:19-20 | a new table has no records and the given project counters |
| HistoryService.HistoryTable.CreateHistory | backend/services/history_service.py:22-57 | one `completed` record with the next id and the run's name is appended, and the project counters are bumped |
| HistoryService.HistoryTable.DeleteHistory | backend/services/history_service.py:131-144 | the table and outcome are those of `Deleted`; the counters stay |
| HistoryService.HistoryTable.BatchDelete | backend/services/history_service.py:146-161 | the table and success count are those of `BatchDeleted`, and successes plus failures equal the number of ids |
| MongoConnector.TypeLabel | backend/connectors/mongo_connector.py:176-180 | the type tallied is `'null'` exactly for None |
| MongoConnector.FieldName | backend/connectors/mongo_connector.py:162 | a field's name is the prefix followed by its key (the prefix is empty at the top level) |
| MongoConnector.NamedIff | backend/connectors/mongo_connector.py:164 | a field is in the statistics iff some entry carries its name |
| MongoConnector.Bump | backend/connectors/mongo_connector.py:180 | bumping a type keeps the existing type names in place and adds the type last, with tally 1, only when it is new |
| MongoConnector.BumpCounts | backend/connectors/mongo_connector.py:180 | a bump adds one to the tally of its type only, and one to the sum of tallies |
| MongoConnector.BumpKeepsUnique | backend/connectors/mongo_connector.py:180 | a bump never lists a type twice |
| MongoConnector.TypeCountAt | backend/connectors/mongo_connector.py:180 | `types.get(t)` reads the entry of t |
| MongoConnector.TypeCountAbsent | backend/connectors/mongo_connector.py:180 | a type not in the tallies reads 0 |
| MongoConnector.CountedConsistent | backend/connectors/mongo_connector.py:173-182 | one more occurrence keeps the tallies summing to the count and the `'null'` tally equal to the null count |
| MongoConnector.Tally | backend/connectors/mongo_connector.py:164-182 | a new field is added last with the statistics of one occurrence; an existing field gets one more occurrence and no other field changes |
| MongoConnector.TallyStats | backend/connectors/mongo_connector.py:164-182 | after a tally, the tallied field has one more occurrence and every other field reads as before |
| MongoConnector.TallyNamed | backend/connectors/mongo_connector.py:164-171 | a tally adds its own field to the statistics and no other |
| MongoConnector.StatsAt | backend/connectors/mongo_connector.py:171 | `field_stats[name]` reads the entry of that name |
| MongoConnector.TallyKeepsOk | backend/connectors/mongo_connector.py:164-182 | a tally keeps every field unique, consistent and counted at least once |
| MongoConnector.TallyAllAppend | backend/connectors/mongo_connector.py:125-126 | tallying two lists of occurrences in turn is tallying their concatenation |
| MongoConnector.TallyAllKeepsOk | backend/connectors/mongo_connector.py:125-126 | any sequence of tallies keeps the statistics well formed |
| MongoConnector.TallyAllCounts | backend/connectors/mongo_connector.py:164-182 | a field is counted once per occurrence, as None once per None value, and per type once per value of that type |
| MongoConnector.TallyAllNames | backend/connectors/mongo_connector.py:164-171 | the fields of the statistics are those with at least one occurrence, old or new |
| MongoConnector.NestedFields | backend/connectors/mongo_connector.py:159-184 | a nested dict is tallied as `'dict'` under its own name, and each of its fields under `<name>.<key>` |
| MongoConnector.OccurrencesPrefix | backend/connectors/mongo_connector.py:161 | the occurrences of the first entries come before those of the rest |
| MongoConnector.OccurrenceOfEntry | backend/connectors/mongo_connector.py:161-162 | every entry of the document is tallied under its field name |
| MongoConnector.FieldStatsTable.constructor | backend/connectors/mongo_connector.py:124 | a new `field_stats` is empty |
| MongoConnector.FieldStatsTable.AnalyzeDocument | backend/connectors/mongo_connector.py:159-184 | the statistics become the old ones with every occurrence of the document tallied in order, nested dicts included |
| MongoConnector.MostCommon | backend/connectors/mongo_connector.py:131 | the chosen type has the largest tally, and no earlier type has as large a one |
| MongoConnector.Columns | backend/connectors/mongo_connector.py:129-138 | one column per field, in the order the fields were first seen |
| MongoConnector.InferColumns | backend/connectors/mongo_connector.py:119-138 | the columns are those of the statistics of all sampled documents, analysed in turn, and those statistics are well formed |
| MongoConnector.ColumnMeaning | backend/connectors/mongo_connector.py:129-138 | a column's sample count is its field's number of occurrences; it is nullable iff some occurrence is None; it is the primary key iff it is `_id`; its type occurs and no type occurs more often |
| MongoConnector.ColumnsCoverFields | backend/connectors/mongo_connector.py:129-138 | there is a column for a field iff the field occurs in the samples |
| MongoConnector.SumPositive | backend/connectors/mongo_connector.py:131 | the chosen type of a counted field has a positive tally |
| MongoConnector.ColumnsAt | backend/connectors/mongo_connector.py:129-138 | the i-th column is built from the i-th field's statistics |
| MongoConnector.ParseQuery | backend/connectors/mongo_connector.py:195-202 | the collection name holds no `:`; a query without `:` is the whole (stripped) name with filter `{}` |
| MongoConnector.QuerySplitsAtFirstColon | backend/connectors/mongo_connector.py:195-199 | a query `a:b` with no `:` in a reads collection a and filter b, both stripped |
| MongoConnector.Filter | backend/connectors/mongo_connector.py:204-208 | the parsed filter text, or `{}` when it does not parse |
| MongoConnector.IdAsText | backend/connectors/mongo_connector.py:213-215 | a document keeps its keys and every value but `_id`, which becomes its text |
| MongoConnector.Take | backend/connectors/mongo_connector.py:210 | `limit(n)` keeps the first min(n, length) documents |
| MongoConnector.MapIdAsText | backend/connectors/mongo_connector.py:213-215 | every result document has its `_id` turned into text |
| MongoConnector.ExecuteQuery | backend/connectors/mongo_connector.py:186-217 | without a database nothing is returned; the result is the first min(n, 1000) documents found, in order; document i keeps the keys of found document i, its `_id` becomes `str()` of the found `_id`, and every other key keeps the found value |
| MongoConnector.Cleaned | backend/connectors/mongo_connector.py:234-236 | cleaning never adds entries |
| MongoConnector.CleanedKeeps | backend/connectors/mongo_connector.py:236 | an entry survives the cleaning iff it is not `_id` or its value is truthy |
| MongoConnector.CleanedOthers | backend/connectors/mongo_connector.py:236 | cleaning leaves what every other key reads unchanged |
| MongoConnector.CleanedIdempotent | backend/connectors/mongo_connector.py:236 | cleaning a cleaned document changes nothing |
| MongoConnector.CleanAll | backend/connectors/mongo_connector.py:234-237 | every document is cleaned, in order |
| MongoConnector.InsertData | backend/connectors/mongo_connector.py:219-244 | nothing to insert succeeds with 0; no database fails with its message; otherwise success iff `insert_many` of the cleaned documents succeeds, and a failure reports 0 rows and an error |
| PostgresConnector.EndingOfEnding | backend/connectors/postgres_connector.py:242-243 | of two endings of one text, the shorter is an ending of the longer |
| PostgresConnector.PlainTail | backend/connectors/postgres_connector.py:242-243 | whatever precedes a plain type, the text does not end with ` NOT NULL` |
| PostgresConnector.TypeMappingPlain | backend/connectors/postgres_connector.py:263-282 | no mapped type, nor the fallback `VARCHAR(255)`, can be taken for a ` NOT NULL` ending |
| PostgresConnector.Lookup | backend/connectors/postgres_connector.py:282 | `dict.get` finds nothing iff no entry has the key, and otherwise the value of the first entry with it |
| PostgresConnector.LookupFound | backend/connectors/postgres_connector.py:282 | a value found is the value of some entry with that key |
| PostgresConnector.LowerIdempotent | backend/connectors/postgres_connector.py:282 | helper about text, used for the case-insensitive match here: lower-casing twice is lower-casing once |
| PostgresConnector.SizeArgs | backend/connectors/postgres_connector.py:127-133 | a truthy maximum length is the only size argument; else a truthy precision comes first, followed by the scale iff it is truthy; else none |
| PostgresConnector.Decimals | backend/connectors/postgres_connector.py:128-132 | each size argument is written as its decimal text |
| PostgresConnector.NoPunctuationInDecimal | backend/connectors/postgres_connector.py:128-132 | a decimal text holds no `,`, `(` or `)` |
| PostgresConnector.ParseIntsDecimals | backend/connectors/postgres_connector.py:128-132 | the decimal texts of the size arguments read back as the arguments |
| PostgresConnector.ColumnTypeRoundTrip | backend/connectors/postgres_connector.py:126-133 | a column type text reads back as its data type and size arguments |
| PostgresConnector.SchemaColumns | backend/connectors/postgres_connector.py:124-154 | one column per information_schema row, in row order: the row's column, then marked as primary key when its name is among the primary-key columns |
| PostgresConnector.MarkedRowColumn | backend/connectors/postgres_connector.py:124-154 | a reported column has the row's name, its type text, nullable iff `is_nullable` is `YES`, the row's default, and is the primary key iff its name is among the primary-key columns |
| PostgresConnector.PrimaryKeys | backend/connectors/postgres_connector.py:238-245 | the primary keys are the names of the columns whose `primary_key` is truthy, in order, and none iff no column is one |
| PostgresConnector.QuotedAll | backend/connectors/postgres_connector.py:249 | every key name in double quotes |
| PostgresConnector.OpenQuotedAll | backend/connectors/postgres_connector.py:249 | as written, every key name after an opening double quote only |
| PostgresConnector.CountAppend | backend/connectors/postgres_connector.py:249 | helper about text, used for the count here: a character's count in a concatenation is the sum of the counts |
| PostgresConnector.CountAbsent | backend/connectors/postgres_connector.py:249 | helper about text, used for the count here: an absent character counts 0 |
| PostgresConnector.CountJoin | backend/connectors/postgres_connector.py:249 | helper about text, used for the count here: a join holds its parts' characters and none more when the separator lacks that character |
| PostgresConnector.QuotedCount | backend/connectors/postgres_connector.py:249 | quoted names hold two `"` each; names opened only hold one each |
| PostgresConnector.ClauseCount | backend/connectors/postgres_connector.py:249 | the frame of the key clause holds no `"` |
| PostgresConnector.PrimaryKeyClauseBalanced | backend/connectors/postgres_connector.py:249 | as intended, each key name is closed by its quote: the clause holds two `"` per name |
| PostgresConnector.PrimaryKeyClauseAsWrittenCount | backend/connectors/postgres_connector.py:249 | as written, the clause holds only one `"` per name |
| PostgresConnector.PrimaryKeyClauseAsWrittenUnbalanced | backend/connectors/postgres_connector.py:249 | as written, a table keyed by `id` gets `PRIMARY KEY ("id)`, an odd number of `"`, where the intended clause is `PRIMARY KEY ("id")` |
| PostgresConnector.RowValues | backend/connectors/postgres_connector.py:216 | one value per column, the row's value or None for a missing key |
| PostgresConnector.FirstRowValues | backend/connectors/postgres_connector.py:207-216 | the first row, whose keys name the columns, inserts its own values in order |
| PostgresConnector.Placeholders | backend/connectors/postgres_connector.py:208 | one `%s` per column |
| PostgresConnector.CountAllSnoc | backend/connectors/postgres_connector.py:208 | helper about text, used for the count here: counting over one more part adds that part's count |
| PostgresConnector.PlaceholderCount | backend/connectors/postgres_connector.py:208 | the placeholders hold one `%` each |
| PostgresConnector.PlaceholdersPerColumn | backend/connectors/postgres_connector.py:207-208 | the placeholder list holds exactly one `%s` per column |
| PostgresConnector.Connector.constructor | backend/connectors/postgres_connector.py:11-24 | a connector holds its schema and the type table of `_map_type` |
| PostgresConnector.Connector.MapTypeLookup | backend/connectors/postgres_connector.py:261-282 | a type the table lacks, in any letter case, becomes `VARCHAR(255)`; a listed one gets its first entry's type |
| PostgresConnector.Connector.MapTypeIgnoresCase | backend/connectors/postgres_connector.py:282 | the mapping does not depend on letter case |
| PostgresConnector.Connector.MapTypeListed | backend/connectors/postgres_connector.py:263-282 | with the standard table, a listed type in any letter case (`INTEGER` as well as `integer`) maps to its own entry's type |
| PostgresConnector.StandardKeysDistinct | backend/connectors/postgres_connector.py:263-281 | no type name is listed twice in the table of `_map_type` |
| PostgresConnector.Connector.StandardPlain | backend/connectors/postgres_connector.py:263-282 | the standard table has no type that could be taken for a ` NOT NULL` ending |
| PostgresConnector.Connector.ColumnDefNotNull | backend/connectors/postgres_connector.py:241-243 | a column definition ends with `NOT NULL` exactly when `nullable` is present and falsy |
| PostgresConnector.Connector.PlainColumnDef | backend/connectors/postgres_connector.py:241-243 | with plain types, a definition ends with `NOT NULL` exactly when the column asks for it |
| PostgresConnector.Connector.ColumnDefs | backend/connectors/postgres_connector.py:240-246 | one definition per column, in order |
| PostgresConnector.Connector.DefinitionsShape | backend/connectors/postgres_connector.py:237-249 | one definition per column in order, plus the key clause iff some column is a primary key |
| PostgresConnector.Connector.CreateTableSql | backend/connectors/postgres_connector.py:232-251 | the loop over the columns assembles exactly the `CREATE TABLE IF NOT EXISTS` statement of the schema, table and definitions |
| PostgresConnector.Connector.CreateTable | backend/connectors/postgres_connector.py:228-259 | success iff the statement executes without error, and the error is the one reported |
| PostgresConnector.Connector.InsertData | backend/connectors/postgres_connector.py:195-226 | no rows succeed with 0; otherwise the columns are the first row's keys, every row is executed in turn, and all rows count unless some row fails, which reports 0 rows and its error |
| RelationPage.Filter | frontend/src/pages/RelationPage.tsx:90 | `Array.filter` keeps exactly the elements the predicate accepts, and never lengthens the array |
| RelationPage.FilterKeepsAll | frontend/src/pages/RelationPage.tsx:165 | a filter that keeps every element returns the array unchanged |
| RelationPage.FilterConcat | frontend/src/pages/RelationPage.tsx:90 | filtering distributes over concatenation, so the kept elements keep their order |
| RelationPage.FilterShrinks | frontend/src/pages/RelationPage.tsx:90 | the array gets shorter exactly when some element is dropped |
| RelationPage.TableName | frontend/src/pages/RelationPage.tsx:92 | `find(...)?.name` finds nothing iff no table has the id, and otherwise the name of a table with it |
| RelationPage.RemoveTableContents | frontend/src/pages/RelationPage.tsx:89-96 | the tables with that id go and the others stay; when the table has a name, the relations left are exactly those not touching it at either end; otherwise the relations stay |
| RelationPage.RemoveUnknownTable | frontend/src/pages/RelationPage.tsx:89-96 | removing an unknown id changes neither tables nor relations |
| RelationPage.RemoveKnownTable | frontend/src/pages/RelationPage.tsx:89-96 | removing a known id shortens the tables |
| RelationPage.AddFieldShape | frontend/src/pages/RelationPage.tsx:98-108 | the matching tables get one more field `field_<n+1>` of type `string` after their own fields, and keep id, name and count; other tables stay |
| RelationPage.AddFieldThenRemove | frontend/src/pages/RelationPage.tsx:98-120 | removing the field just added, under a fresh id, gives back the tables |
| RelationPage.UpdateFieldThenRemove | frontend/src/pages/RelationPage.tsx:110-132 | updating a field and then removing it is removing it, when the update keeps the id |
| RelationPage.FilterUpdated | frontend/src/pages/RelationPage.tsx:115-127 | filtering out a field id after updating it is filtering it out |
| RelationPage.UpdateFieldOnlyMatching | frontend/src/pages/RelationPage.tsx:122-132 | only the matching fields of the matching tables change, each by the update; table ids, names, counts and field counts stay |
| RelationPage.ApplyFieldIdempotent | frontend/src/pages/RelationPage.tsx:127 | applying the same update twice changes nothing more |
| RelationPage.RenameEnds | frontend/src/pages/RelationPage.tsx:139-143 | every relation end equal to the old name takes the new one, every other end and property stays |
| RelationPage.RenameRoundTrip | frontend/src/pages/RelationPage.tsx:134-145 | renaming a named table to an unused name and back restores tables and relations, when ids are unique |
| RelationPage.RenameLeavesNoOldName | frontend/src/pages/RelationPage.tsx:134-145 | after renaming a named table, no relation end keeps the old name |
| RelationPage.UpdateTableCountLastWins | frontend/src/pages/RelationPage.tsx:147-149 | only the matching tables' count changes, and the last count set wins |
| RelationPage.FirstFieldName | frontend/src/pages/RelationPage.tsx:156-158 | the column is the first field's name, or `id` when there is none or it is empty; never empty |
| RelationPage.AddRelation | frontend/src/pages/RelationPage.tsx:151-162 | with fewer than two tables nothing changes; otherwise one one-to-many link from the first table to the second, with non-empty columns, is appended after the others |
| RelationPage.AddRelationThenRemove | frontend/src/pages/RelationPage.tsx:151-166 | removing the relation just added, under a fresh id, gives back the relations |
| RelationPage.RemoveRelationContents | frontend/src/pages/RelationPage.tsx:164-166 | removal keeps exactly the relations with another id, and an unknown id changes nothing |
| RelationPage.UpdateRelationOnlyMatching | frontend/src/pages/RelationPage.tsx:168-170 | only the relations with that id change, each exactly by the update |
| RelationPage.UpdateRelationThenRemove | frontend/src/pages/RelationPage.tsx:164-170 | updating a relation and then removing it is removing it, when the update keeps the id |
| Preview.OrderedValue | frontend/src/components/PreviewPanel.tsx:18-22 | a missing or null value shows as the empty text, anything else as `String(value)` |
| Preview.Pairs | frontend/src/components/PreviewPanel.tsx:33-35 | the entries the ordered object keeps are at most one per field name |
| Preview.OrderedRows | frontend/src/components/PreviewPanel.tsx:31-37 | one ordered object per row, in row order |
| Preview.PairsNames | frontend/src/components/PreviewPanel.tsx:33-35 | a key is kept iff it is a field name the row has |
| Preview.PairsLastValue | frontend/src/components/PreviewPanel.tsx:33-35 | the value a field name ends with is the row's own value |
| Preview.OrderedRowContents | frontend/src/components/PreviewPanel.tsx:31-37 | the ordered object holds exactly the configured names the row has, each with the row's value, and no key twice |
| Preview.PairsOrder | frontend/src/components/PreviewPanel.tsx:33-35 | with distinct field names the kept entries have distinct names, all configured |
| Preview.OrderedRowKeys | frontend/src/components/PreviewPanel.tsx:31-37 | with distinct field names the object's keys are created for the present names, in field order |
| Preview.OrderedRowJsonKeys | frontend/src/components/PreviewPanel.tsx:30-37 | `JSON.stringify` lists each present name once: names that are array indices first, ascending by value, then the other names in field order |
| Preview.OrderedRowJsonPlain | frontend/src/components/PreviewPanel.tsx:30-37 | when no field name is an array index, the JSON keys are the present names in field order |
| Preview.OrderedRowIndexNameFirst | frontend/src/components/PreviewPanel.tsx:30-37 | with fields "b" then "1", both present, the JSON object lists "1" before "b" |
| Values.JsKeyOrderPermutes | frontend/src/components/PreviewPanel.tsx:38 | JavaScript's key listing holds every created key exactly once |
| Values.JsKeyOrderIndicesFirst | frontend/src/components/PreviewPanel.tsx:38 | in JavaScript's key listing every array index precedes every other key, and the indices ascend by value |
| Values.JsKeyOrderOthers | frontend/src/components/PreviewPanel.tsx:38 | in JavaScript's key listing the keys that are not array indices keep their creation order |
| Values.JsKeyOrderPlain | frontend/src/components/PreviewPanel.tsx:38 | with no array-index key the listing is the creation order |
| Values.JsKeyOrderIndexFirst | frontend/src/components/PreviewPanel.tsx:38 | keys created as "b" then "1" are listed "1", "b" |
| Preview.CsvCellRoundTrip | frontend/src/components/PreviewPanel.tsx:42 | every CSV cell (section 2 of RFC 4180) reads back as the displayed value, whatever double quotes it holds |
| Preview.EscapeAvoids | frontend/src/components/PreviewPanel.tsx:42 | doubling one quote character adds no other character |
| Preview.JoinAvoids | frontend/src/components/PreviewPanel.tsx:40-44 | a join holds a character only if a part or the separator does |
| Preview.CsvRowOneLine | frontend/src/components/PreviewPanel.tsx:41-43 | a row line holds no line break when no displayed value does |
| Preview.CsvLineList | frontend/src/components/PreviewPanel.tsx:40-44 | the lines are the header of field names joined by `,`, then one line per row |
| Preview.CsvTextLines | frontend/src/components/PreviewPanel.tsx:44 | the CSV text is its lines joined by newlines |
| Preview.NoLineBreaks | frontend/src/components/PreviewPanel.tsx:40-44 | no line holds a line break when neither names nor values do |
| Preview.CsvLines | frontend/src/components/PreviewPanel.tsx:39-44 | when neither names nor values hold a line break, the text splits back into the header and one line per row, in order |
| Preview.SqlLiteralRoundTrip | frontend/src/components/PreviewPanel.tsx:51-52 | every SQL literal reads back as the displayed value, whatever apostrophes it holds |
| Preview.Copy | frontend/src/components/PreviewPanel.tsx:24-58 | nothing is copied without rows; otherwise the text of the chosen format |
| Preview.HandleExport | frontend/src/components/PreviewPanel.tsx:69-96 | nothing happens without rows or while an export is in flight; otherwise a file `generated_data.<ext>`, holding the server's text when the server answers |
| Preview.OrderedValueKept | frontend/src/components/PreviewPanel.tsx:104-119 | a cell computed from the ordered object shows what the row itself shows |
| Preview.FallbackMatchesCopy | frontend/src/components/PreviewPanel.tsx:98-136 | the fallback export writes the same text as the copy button for every format |
| Preview.Truncated | frontend/src/components/PreviewPanel.tsx:216-217 | a text up to 30 characters is shown whole; a longer one as its first 30 characters and `...` |
| Preview.Head | frontend/src/components/PreviewPanel.tsx:211 | `slice(0, n)` keeps the first min(n, length) rows |
| Preview.TablePreview | frontend/src/components/PreviewPanel.tsx:211-221 | at most 100 rows, each with one cell per field |
| Preview.JsonPreview | frontend/src/components/PreviewPanel.tsx:232-243 | the JSON view shows the first rows, 20 of them or all when fewer, each the row's ordered object as the export builds it |
| Preview.JsonPreviewNote | frontend/src/components/PreviewPanel.tsx:243 | the `// ... 更多数据` note follows the JSON view exactly when the view leaves rows out |
| Preview.TablePreviewCells | frontend/src/components/PreviewPanel.tsx:211-228 | a cell shows a value up to 30 characters whole and a longer one cut to 30 and `...`; the note appears exactly when rows were left out |
| LegacyPreview.CellText | components/preview-panel.tsx:25 | a missing field reads `undefined`; a present one reads `String(value)` |
| LegacyPreview.JsonKeepsOtherKeys | components/preview-panel.tsx:21-22 | a key that is not a configured field stays in this panel's JSON, where the newer panel drops it |
| LegacyPreview.WrappedWithoutQuotes | components/preview-panel.tsx:25 | a value without the quote character is written as the escaping panel writes it |
| LegacyPreview.CsvAgreesWithoutQuotes | components/preview-panel.tsx:23-26 | where every value is present, non-null and free of `"`, the CSV text is the newer panel's |
| LegacyPreview.MissingFieldCell | components/preview-panel.tsx:25-32 | a missing field is written `"undefined"` in CSV and `'undefined'` in SQL, where the newer panel writes an empty cell |
| LegacyPreview.CsvCellBreaks | components/preview-panel.tsx:25 | a CSV cell holding a double quote (`a"b`) does not read back, where the newer panel's does |
| LegacyPreview.SqlLiteralBreaks | components/preview-panel.tsx:32 | a SQL value holding an apostrophe (`O'Brien`) does not read back, where the newer panel's does |
| LegacyPreview.TablePreview | components/preview-panel.tsx:152-163 | at most 100 rows, each cell the value's text cut to 30 characters |
| LegacyPreview.JsonPreview | components/preview-panel.tsx:176-177 | the JSON view shows the first rows as generated, at most 20, fewer than all exactly when there are more than 20 |
| TemplateManager.Reid | components/template-manager.tsx:95 | every field gets a fresh id and keeps everything else |
| TemplateManager.SaveBlankName | components/template-manager.tsx:68-69 | a name that is blank after trimming leaves the whole state as it was |
| TemplateManager.SaveResetsForm | components/template-manager.tsx:101-104 | saving with a name clears the form and the edit target and closes the dialog; search and category selection stay |
| TemplateManager.SaveEdit | components/template-manager.tsx:73-87 | an edit keeps the length and the ids; the templates with the edited id take the form's values, the current fields and the new `updatedAt`, keeping `createdAt`; the others are unchanged |
| TemplateManager.SaveEditUnique | components/template-manager.tsx:73-87 | an edit keeps the ids unique |
| TemplateManager.SaveCreate | components/template-manager.tsx:88-100 | a new template is appended after the others, stamped with the same time for `createdAt` and `updatedAt`, holding the current fields' names, types and options under fresh ids |
| TemplateManager.SaveCreateThenDelete | components/template-manager.tsx:88-109 | deleting a newly created template by its fresh id gives back the list before the save |
| TemplateManager.EditTemplate | components/template-manager.tsx:111-119 | opening a template for editing keeps the list, makes it the edit target and opens the dialog |
| TemplateManager.EditThenSaveTouches | components/template-manager.tsx:68-119 | opening a template for editing and saving it with the same fields changes only its `updatedAt` |
| TemplateManager.DeleteContents | components/template-manager.tsx:107-109 | exactly the templates with another id stay, in their order |
| TemplateManager.DeleteIdempotent | components/template-manager.tsx:107-109 | deleting an id nobody has changes nothing, so deleting twice is deleting once |
| TemplateManager.DeleteAppended | components/template-manager.tsx:107-109 | appending a template with a fresh id and deleting it again gives back the list |
| TemplateManager.DuplicateShape | components/template-manager.tsx:121-132 | one template is appended, named after the original with ` (副本)`, keeping its description and category, with the original's field names, types and options |
| TemplateManager.DuplicateThenDelete | components/template-manager.tsx:121-132 | deleting the copy by its fresh id gives back the list before duplicating |
| TemplateManager.FilteredContents | components/template-manager.tsx:147-153 | a template is listed exactly when its name or description contains the query ignoring case and the category is `all` or its own, in list order |
| TemplateManager.FilteredShowsAll | components/template-manager.tsx:147-153 | an empty search under `all` lists every template |
| TemplateManager.FindCategory | components/template-manager.tsx:144 | `find` returns an entry iff one has the id, and then one with that id |
| TemplateManager.CategoryInfoFallback | components/template-manager.tsx:143-145 | a listed id gets its own entry; any other id gets the `other` entry |

## Left out

- MockGenerator.GenerateMockData: requires every field's name to be text. Records are keyed by strings in the model, so a non-text name (which a Python dict would accept as a key) is not modelled.
- GeneratorService.SpecName: requires the name to be text, for the same reason.
- Scheduler.SchedulerService.ExecuteTask: for a task whose fields name a column with anything but text (a number, a boolean, null, a list or a dict), the generation outcome is the parameter `unmodelled`, for the same reason.
- Scheduler.Stats: `success_rate` is a rounded float and is not computed; only the counts are.
- Validation.Summarize: `valid_rate` is a float and is not computed; only the counts are.
- Templates.Average: the rating average is an exact rational (`real`), not a rounded Python float.
- Floating point in general: `validate_range` on float bounds and float columns are not modelled (`Values` has no float).
- Validation.RangeCheck: text counts as a number only when `int()` would read it. `float()` (backend/services/validation_service.py:144) also reads decimal and exponent text, `inf` and `nan`; for such text the model fails with `值必须为数字` where the source compares the number, so `"1.5"` against `min_val` 1 passes there and fails here. An integer too large for a float (`10**400`) makes `float()` raise an OverflowError, which the `except` does not catch; the model compares it exactly.
- The `rate_limit` decorator (backend/middleware/auth.py:258-282): a per-process dict of lists keyed by client address and clock. The sliding window itself is modelled by `AuthMiddleware.RateLimiter`; the Flask request plumbing is not.
- `project_access_required` and `project_admin_required`: they read the Project model and its membership table, which are not part of this model.
- Webhook service paging (`get_webhooks`), `get_supported_events`, `test_webhook`, `to_dict` and `find_by_user`: listing and serialisation only.
- API-key usage statistics and usage logs (`get_usage_stats`, `get_usage_logs`, the usage-log row): read-only queries over the log table.
- Template market listings and statistics: `list_templates`, `get_template`, `get_template_ratings`, `get_user_favorites`, `get_popular_tags`, `get_categories`, `get_market_stats`, `Template.search` and `Tag.get_popular` are queries with ordering and paging by the database. `init_default_templates` is seed data.
- `template_service.get_all` and the aliasing of the dicts it returns: the model returns values, so a caller mutating a returned dict is not captured.
- `AuthService.get_current_user`: it is the middleware's optional-user lookup, modelled once as `AuthMiddleware.OptionalUser`.
- `updated_at` timestamps set by the ORM's `onupdate`: they are not modelled.
- DataSourceService.DataSourceTable.UpdateDatasource: on a bad port, the fields assigned before the check stay on the returned row, but whether the session later commits them is not modelled.
- WebhookService update with a bad URL: partial assignment before the error is not modelled past the error result.
- Network and database I/O: the following stand as parameters or are not modelled:
  - `connect`, `test_connection`, `get_tables`, `execute_query`, `create_collection` and `create_index`;
  - the pymongo and psycopg2 drivers;
  - `list_datasources`, `list_history`, `get_user_stats`, `get_project_stats` and `get_history_by_uuid`.
- MongoDB `get_table_schema`: the index list and the document count; only the inferred fields are modelled. The PostgreSQL index query is left out too.
- croniter and APScheduler: they are one abstract `Cron` value. What the model keeps of them:
  - which expressions croniter parses;
  - which expressions and time zones `CronTrigger.from_crontab` accepts, beyond its five-field split;
  - the next fire time after a moment, always later than it, taken to be the same for both libraries.

  The scheduler's thread pool, misfire handling, the SQLAlchemy job store (which pickles each job) and `init_scheduler`/`_load_existing_tasks` start-up are not modelled.
- JSON, CSV, regex, hashing and JWT signing: each is a function parameter. The model does not re-prove the libraries.
- Case folding and whitespace stripping: ASCII only; Unicode case mapping is not modelled.
- Preview.Truncated, Preview.TablePreviewCells and LegacyPreview.TablePreview: text is a sequence of Unicode scalar values, and the 30-character cut counts those. JavaScript's `.length` and `.slice(0, 30)` (frontend/src/components/PreviewPanel.tsx:216-217; components/preview-panel.tsx:160-161) count UTF-16 code units, so text outside the Basic Multilingual Plane is cut at another place: 20 emoji are 40 code units, which JavaScript cuts after 15 emoji with `...` where the model shows all 20. A cut between the two halves of a surrogate pair is not modelled either.
- MongoConnector.ExecuteQuery and MongoConnector.InsertData: `hasDb` stands for the truth of `self._db` (backend/connectors/mongo_connector.py:191, 227), read as a truthy database object, which is how PyMongo 3 behaves. With PyMongo 4, `bool()` of a `Database` raises NotImplementedError outside any `try`, so both operations would raise on every connected call. The driver version is not modelled.
- MongoConnector.IdAsText: `str(_id)` is modelled on the value kinds the model has. An ObjectId, a float or a datetime `_id` is not one of them.
- Preview.JsString: `String(n)` of an integer is its decimal text; JavaScript writes numbers of magnitude 1e21 or more in exponent form, which is not modelled.
- Templates.TemplateDb.SetTags: two names that trim to the same text attach the tag twice. In the source the second association plausibly violates the unique key of the association table at commit; that database error is not modelled.
- TemplateMarket.UpdateTemplate: the tags of a change are absent or a list of names, so `tags: null` has no counterpart. In the source `None` reaches `set_tags`, which gives back the held tags' uses and then raises a TypeError at `tag_names[:10]` (backend/models/template.py:154-159).
- `Date.now`, `Math.random`, `uuid4`, `datetime.now` and `datetime.utcnow`: parameters.
- Scheduler.SuccessfulExecution, Scheduler.Rescheduled, Scheduler.NewTask, Scheduler.GetNextRuns, Scheduler.SchedulerService.ResumeTask, ScheduledTask.ActiveUntilExpiry and ScheduledTask.RecordRun: the model reads one clock. The source reads two: `next_run_at` and every croniter base come from local `datetime.now()` (backend/services/scheduler_service.py:94, 229, 283, 349, 412, 535), while `started_at`, `finished_at`, `last_run_at` and the expiry test use `datetime.utcnow()` (backend/services/scheduler_service.py:135, 157, 174; backend/models/scheduled_task.py:98, 144). The model is that of a server whose local time is UTC. Elsewhere the stored columns mix the two: on a server at UTC-5, a `0 8 * * *` run finishing at 12:00 UTC (07:00 local) stores `next_run_at` 08:00, before `finished_at`.
- Scheduler.SchedulerService.UpdateTask: a bad new cron expression is refused with nothing changed. In the source, `name` and `description` are assigned to the ORM row before the check (backend/services/scheduler_service.py:320-326); whether the session later commits them is not modelled.
- Scheduler.SchedulerService.AddJob: the branch that registers a job runs only when an app is passed. The routes never pass one, so from the routes no job is registered; the model keeps the branch as the service writes it.
- Concurrency: requests, scheduler threads and database sessions are taken to run one at a time.
- `import_templates`: builds `Template(..., user_id=...)`, a keyword the Template model does not have. Every template item therefore fails, and the model returns that failure as one error per item.
- Settings `init_default_settings`, `get_categories` and `get_setting_detail`: seed data and read-only listings.
- The data-source `password` property: as written it always reads None. Only `get_password` (the base64 decode) is modelled.
- The unused `include_sensitive` argument of the data-source `to_dict`: not modelled.
- RelationPage `addTable` and `handleGenerate`: `addTable` reads the clock for an id, and `handleGenerate` is a fetch call. The other handlers are modelled.
- TemplateManager `handleApplyTemplate` and `getFieldTypeName`: a callback to the parent component and a display lookup.
- The older preview panel's clipboard and download side effects, and its copy without an empty-data guard: only the text it builds is modelled.
- DataSources.ReadPassword: stored text is assumed to be canonical base64. Python's `b64decode` without `validate` skips characters outside the alphabet, so a stored `"YQ==\n"` reads as `"a"` there, while the model gives `Err(BadBase64)`. Only a row written other than through `set_password` can hold such text.
- DataSourceService.DataSourceTable.UpdateDatasource: the port is an integer. A JSON null or a text port makes `1 <= port` raise a TypeError (backend/services/datasource_service.py:97); that error is not modelled.
- ApiKeyService.KeyStore.UpdateKey: `permissions: null` is read as "not passed". In the source, iterating over None raises a TypeError (backend/services/api_key_service.py:102).
- Text.IsSpace: one ASCII whitespace set serves both Python's `str.strip` and JavaScript's `trim`. It lacks `\x1c`-`\x1f` and `\x85`, which `str.strip` also removes, and the non-ASCII spaces both languages remove.
- Text.ParseInt: `int()` also accepts single underscores between digits (`"1_000"`); ParseInt refuses them, and so does the integer read of `SystemSettings.GetValue`.
- Values.StrRepr: the quote choice of `repr()` is modelled; backslashes, control characters and non-printable characters are not escaped.
- TemplateMarket.DeleteTemplate: the template is removed and its rating, favourite and download rows are kept. In the source, those back-references have no delete cascade and a NOT NULL `template_id` (backend/models/template.py:187, 219, 234). The ORM would then try to set them to null, which plausibly fails at commit for any template with such rows. That library behaviour is not modelled.
- The whole-module effect of the line-249 error in backend/connectors/postgres_connector.py: as written the module does not parse, so nothing in it can be imported. The model keeps the rest of the connector as its authors evidently meant it (see Findings).

## Findings

| source | as written | input that shows it | evidently intended | confidence | as-written member | corrected member |
|---|---|---|---|---|---|---|
| backend/services/validation_service.py:211-224 | the value and the rule's own parameter are passed by position, and the whole rule is also passed as `**rule`; a rule key that names a parameter already bound (`expected_type`, `pattern`, `allowed_values`, `existing_values`, `preset_name`) raises a TypeError | `{"type": "type", "expected_type": "string"}` on any value; and every `unique` rule once cross-record uniqueness adds `existing_values` | each rule is checked once with its parameter and returns a valid flag and a message | not executed | Validation.RuleCheckAsWritten, Validation.TypeRuleRaises, Validation.ArmedUniqueRaises | Validation.RuleCheck, Validation.TypeRuleReported |
| backend/services/masking_service.py:172, 186-199 | `mask_value(value, rule['strategy'], **rule)` passes `strategy` both by position and by keyword | any preset name, e.g. `phone`; any field rule `{"strategy": "mask"}` | the preset or rule masks with its own strategy and options (the `password` preset, whose replacement option is named `value`, still collides with `mask_value`'s first parameter) | not executed | Masking.PresetsRaise, Masking.RuleStrategy | Masking.PresetsApplyOnce, Masking.AddressPresetTruncates, Masking.RuleStrategyOnce |
| backend/connectors/postgres_connector.py:249 | the replacement field of the f-string holds backslash-escaped quotes, which Python does not accept there; read with those quotes as the inner literal's delimiters, `f'"{pk}'` gives each key an opening `"` and no closing one | a column list whose only primary key is `id`: `PRIMARY KEY ("id)` | `PRIMARY KEY ("id")`, each key name quoted on both sides | not executed | PostgresConnector.PrimaryKeyClauseAsWritten, PostgresConnector.PrimaryKeyClauseAsWrittenUnbalanced | PostgresConnector.PrimaryKeyClause, PostgresConnector.PrimaryKeyClauseBalanced |
| components/preview-panel.tsx:23-37 | CSV cells are wrapped in `"` and SQL values in `'` without doubling the quote inside | a name `a"b` is written `"a"b"`; `O'Brien` is written `'O'Brien'` | quotes inside a value are doubled, as the newer PreviewPanel.tsx does, so each cell reads back as its value | not executed | LegacyPreview.CsvCellBreaks, LegacyPreview.SqlLiteralBreaks | Preview.CsvCellRoundTrip, Preview.SqlLiteralRoundTrip |
| backend/services/settings_service.py:265-275 | `set_setting(key, config['value'], **config)` passes `value` both by position and by keyword | `reset_to_default("site_name")`, or any key with a default | the setting is rewritten with its default value and metadata | not executed | SettingsManagement.SettingsService.ResetToDefaultAsWritten, SettingsManagement.SettingsService.EveryCategoryResetRaises | SettingsManagement.SettingsService.ResetToDefault, SettingsManagement.SettingsService.ResetRestoresDefault |
