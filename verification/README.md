# QNAPBackup bookkeeping in Dafny

A functional model of the bookkeeping at the heart of the QNAPBackup manager,
with proofs about it. The model covers three cores:

- **The schedule registry.** It keeps schedule records, a bounded newest-first
  execution history, and create / update / delete / pause / resume / run-now.
  It models the guarded state transition of a scheduled execution and the
  statistics view (`backend/scheduler.py`).
- **The API-side logic** (`backend/main.py`):
  - classifying `docker volume ls` lines;
  - listing backups newest-first from their JSON file names;
  - validating schedule requests;
  - the backup and restore task state machines and restore path mapping;
  - reading `df` output and looking up tasks;
  - the callback the API gives the scheduler.
- **The Milvus collection backup** (`scripts/backup_collections.py`): one
  result per instance, failure isolation, the summary total and the exit code.

Records are immutable datatypes. The registry is a `map` from id to
`ScheduleConfig`, the history is a `seq`, and every operation is a pure
function from state to state.

Some things the program gets from outside become function parameters:
- the clock, `uuid4` ids and `datetime.now()` stamps;
- next-fire times from APScheduler or croniter (`nextFire`);
- the backup callback;
- script and subprocess results (`ScriptRun`, `RestoreEnv`);
- directory listings (`DirEntry`);
- Milvus answers (`InstanceEnv`).

Modules, one per file:
- `Wrappers`: `Option` and `Result`.
- `Text`: the Python string operations the code relies on.
- `Repr`: Python's `repr` of a string, as `%r` formatting writes it, and the reading that undoes it.
- `Seqs`: slices with Python semantics, filters and subsequences.
- `Ordering`: a stable sort by a string key.
- `Schedules`: enums, `ScheduleConfig`, the dictionary round trip and field updates.
- `History`: the execution log.
- `Scheduler`: the registry.
- `Http`: shared error responses.
- `Volumes`, `DiskUsage`, `Backups`, `Tasks`, `Restore`: the API helpers.
- `ScheduleApi`: the schedule endpoints' validation.
- `ScheduledCallback`: the scheduler callback.
- `CollectionBackup`: the Milvus script.

Where the code and its own docstrings and comments differ, the model follows the code:
- A `once` schedule stays `active` after it fires. Its `next_run` is
  recomputed to the same `run_date`. Nothing disables it.
- `retry_on_failure` and `max_retries` are stored but never acted on.
- `run_now` starts the same guarded execution as a timer firing. So it does
  nothing for a paused schedule, yet still reports "started".
- A non-sequential schedule runs only its first backup type. With an empty
  type list this raises an index error, and the run is recorded as failed.

## Model

| member | source | states |
|---|---|---|
| Schedules.ParseType | backend/scheduler.py:27-35 | a schedule type parses back to its own value, and every other string is refused |
| Schedules.ParseStatus | backend/scheduler.py:37-41 | a status parses back to its own value, and every other string is refused |
| Schedules.FromDict | backend/scheduler.py:80-88 | building a schedule from its dictionary fails exactly when the type or status string is unknown, with ValueError's message (the value as Python's repr writes it); a built schedule converts back to the same dictionary |
| Schedules.InvalidEnumMessage | backend/scheduler.py:84-87 | the enum's ValueError text ends with " is not a valid " and the enum's name, and its head is a repr from which the offending value reads back, so different values give different messages |
| Schedules.ApostropheMessage | backend/scheduler.py:84-85 | a value holding an apostrophe is quoted with double quotes in the message, as repr writes it |
| Schedules.FromDictToDict | backend/scheduler.py:76-88 | converting a schedule to its dictionary and back gives the same schedule |
| Schedules.ApplyField | backend/scheduler.py:367-375 | setting one attribute fails exactly for an unknown type or status string; otherwise the new value is stored, and id and created_at never change |
| Schedules.ApplyFieldFrame | backend/scheduler.py:367-375 | setting one attribute leaves every other attribute as it was |
| Schedules.ApplyFields | backend/scheduler.py:367-375 | the update loop stops at the first refused value and never changes id or created_at |
| Schedules.ApplyFieldsFrame | backend/scheduler.py:367-375 | an attribute no update names keeps its value, even when the loop stops early |
| Schedules.ApplyFieldsLastWins | backend/scheduler.py:367-375 | when the loop finishes, each attribute holds the value of the last update that names it |
| History.Add | backend/scheduler.py:98-114 | the new entry is first, older entries shift by one, and the length is min(old length + 1, max_entries) |
| History.AddAllKeepsNewest | backend/scheduler.py:111-114 | after any run of additions to an empty log, the log holds the newest max_entries entries, newest first |
| History.AddAllFrom | backend/scheduler.py:111-114 | after additions to any valid log, it holds the first max_entries of the new entries (newest first) followed by the old ones |
| History.GetRecent | backend/scheduler.py:116-118 | the result is a prefix of the log, with length min(limit, len) for a non-negative limit and Python's negative-slice length otherwise |
| History.GetBySchedule | backend/scheduler.py:120-122 | only entries of that schedule, the newest first as in the log, as a subsequence of the log: the first limit of them, or for a negative limit all but the last -limit, as Python's slice does |
| History.GetByScheduleComplete | backend/scheduler.py:120-122 | with a limit as large as the log, every entry of the schedule is returned |
| History.GetHistory | backend/scheduler.py:422-426 | a non-empty id gives that schedule's entries cut by the limit; otherwise the log's head cut by the limit, as get_recent does; either way Python's slice length for both signs of limit, and a subsequence of the log |
| Scheduler.CreateSchedule | backend/scheduler.py:343-359 | fails exactly on an unknown type or status; otherwise stores the schedule under the new id with next_run as `_calculate_next_run` gives it for the current time, and leaves the other schedules, history and running flag alone |
| Scheduler.CreatePreservesValid | backend/scheduler.py:343-359 | creation keeps every stored schedule filed under its own id |
| Scheduler.UpdateSchedule | backend/scheduler.py:361-387 | an absent id is reported and changes nothing; otherwise only that schedule changes, its id and created_at never change, and it raises exactly when some value is an unknown type or status |
| Scheduler.UpdatePreservesValid | backend/scheduler.py:361-387 | updating keeps every stored schedule filed under its own id |
| Scheduler.UpdateKeepsUnnamed | backend/scheduler.py:367-375 | when the update raises, attributes it does not name are unchanged |
| Scheduler.UpdateSetsNamed | backend/scheduler.py:367-381 | when the update succeeds, each named attribute other than updated_at and next_run holds its last given value |
| Scheduler.PauseSchedule | backend/scheduler.py:407-409 | an absent id is reported; otherwise the schedule becomes paused, whatever its prior status |
| Scheduler.ResumeSchedule | backend/scheduler.py:411-413 | an absent id is reported; otherwise the schedule becomes active, whatever its prior status |
| Scheduler.SetStatusResult | backend/scheduler.py:407-413 | pausing or resuming changes only status, updated_at and next_run of that schedule |
| Scheduler.PauseResumeRoundTrip | backend/scheduler.py:407-413 | pausing then resuming an active schedule restores every field except updated_at and next_run; next_run is what the next-fire time gives at the resume, so it comes back unchanged exactly when that answer has not moved since, as for a once schedule |
| Scheduler.DeleteSchedule | backend/scheduler.py:389-397 | reports whether the id existed; removes exactly that key and leaves every other schedule unchanged |
| Scheduler.CreateThenDelete | backend/scheduler.py:343-397 | deleting a freshly created schedule restores the registry |
| Scheduler.GetSchedule | backend/scheduler.py:399-401 | finds a schedule exactly when its id is stored, and the found schedule carries that id |
| Scheduler.InvokeInOrder | backend/scheduler.py:242-245 | the callback is called on the backup types in list order and stops at the first one that raises; the run completes exactly when every call does |
| Scheduler.Invoke | backend/scheduler.py:240-249 | with no callback nothing is called; a sequential schedule calls every type in order; otherwise only the first type is called, and an empty list raises |
| Scheduler.ExecuteScheduled | backend/scheduler.py:220-286 | an unknown id, an inactive schedule or a run already in progress changes nothing. Success adds 1 to run_count and sets last_status "success"; failure keeps run_count and sets "failed". Either way exactly one matching history entry is added and the running flag is cleared |
| Scheduler.ExecutePreservesValid | backend/scheduler.py:220-286 | an execution keeps every stored schedule filed under its own id |
| Scheduler.OnceStaysActive | backend/scheduler.py:210-211 | a once schedule is still active after it fires, and its next run is again its run date |
| Scheduler.RunNow | backend/scheduler.py:415-420 | reports started exactly for a stored id, and then runs the guarded execution |
| Scheduler.RunNowInactiveIsSilent | backend/scheduler.py:415-420 | run-now on a paused or disabled schedule reports started but changes nothing |
| Scheduler.KeysOf | backend/scheduler.py:430-439 | lists every schedule id exactly once |
| Scheduler.CountStatusCard | backend/scheduler.py:430-432 | counting over distinct ids gives the number of schedules with that status |
| Scheduler.CountStatusSum | backend/scheduler.py:430-452 | the active, paused and disabled counts add up to the total |
| Scheduler.UpcomingListMembers | backend/scheduler.py:435-443 | an upcoming run is listed exactly when it belongs to an active schedule with a non-empty next_run |
| Scheduler.UpcomingListCard | backend/scheduler.py:435-443 | there is one upcoming run per such schedule |
| Scheduler.StatusCounts | backend/scheduler.py:428-452 | total is the number of schedules, active and paused count their statuses, and total - active - paused is the number of disabled schedules |
| Scheduler.UpcomingSorted | backend/scheduler.py:435-444 | the sorted upcoming list is ascending by next_run and has the same runs as before sorting |
| Scheduler.PrefixOfSortedIsEarliest | backend/scheduler.py:444-451 | a run left out of the first n of a sorted list is no earlier than any run that was kept |
| Scheduler.ShownAreEarliest | backend/scheduler.py:435-451 | the shown runs are at most n of the eligible runs, ascending, none left out is earlier, and none is shown twice when each schedule is filed under its own id |
| Scheduler.UpcomingListDistinct | backend/scheduler.py:435-441 | one upcoming entry per active schedule: distinct ids give distinct entries |
| Scheduler.GetStats | backend/scheduler.py:428-454 | the counts match the registry and sum to the total; upcoming_runs holds the earliest at most 5 eligible runs, ascending and without repeats; recent_history is the 5 newest entries |
| Volumes.Categorize | backend/main.py:303-312 | mongodb exactly when the lowered name contains "mongo"; "other" exactly when no rule word occurs |
| Volumes.CategorizeFollowsRules | backend/main.py:303-312 | the category is the first rule, in the order mongo, milvus/minio/etcd, postgres, redis, that matches the lowered name |
| Volumes.CategorizeIgnoresCase | backend/main.py:303-312 | names equal up to ASCII case get the same category |
| Volumes.ParseVolumeLine | backend/main.py:299-314 | the name is the text before the first '\|', the driver defaults to "local" when there is no '\|', and the category comes from the name |
| Volumes.ParseVolumeLines | backend/main.py:295-315 | exactly one volume per non-empty line, in order |
| Volumes.GetDockerVolumes | backend/main.py:288-316 | a failing command gives no volumes; otherwise one volume per non-empty line of the stripped output |
| Volumes.ParseLine | backend/main.py:299-314 | reading a printed name\|driver line gives back that name and driver |
| Volumes.ParseLines | backend/main.py:295-315 | reading printed lines gives back every volume in order |
| Volumes.JoinedLinesUnpadded | backend/main.py:295 | a listing of printable lines has no blank at either end, so stripping leaves it alone |
| Volumes.ListingRoundTrip | backend/main.py:288-316 | parsing Docker's listing of well-formed volumes gives each volume once, in order, with its own driver and category |
| DiskUsage.GetDiskUsage | backend/main.py:667-687 | 503 when the share is not mounted and 500 when df fails; with five or more fields it returns fields 1 to 4 and the mount point, and otherwise the raw output |
| DiskUsage.DfLineRoundTrip | backend/main.py:677-684 | a df line of five or more columns yields its columns 1 to 4 |
| DiskUsage.DfShortLine | backend/main.py:677-687 | a df line of fewer than five columns is returned raw |
| Backups.TimestampRoundTrip | backend/main.py:336-341 | the file backup_global_T.json matches the glob, and its timestamp is T |
| Backups.Collect | backend/main.py:336-352 | at most one backup per directory entry |
| Backups.DateOf | backend/main.py:139-145 | a missing backup_date_local becomes the empty date; a present one validates exactly when it is a JSON string, which becomes the date |
| Backups.ComponentsOf | backend/main.py:139-145 | a missing components key becomes the empty dictionary, null validates as no components, an object validates as itself, and every other JSON value fails validation |
| Backups.CollectMembers | backend/main.py:336-352 | a backup is collected exactly when it comes from a matching entry whose manifest reads and validates |
| Backups.GetBackupsList | backend/main.py:327-354 | a missing base gives no backups; otherwise the same backups as collected, sorted by timestamp descending |
| Backups.NullComponentsListed | backend/main.py:336-350 | a matching manifest whose components are null is still listed, with no components |
| Backups.BackupsListComplete | backend/main.py:327-354 | every matching file whose manifest reads and validates is listed, and nothing else |
| Backups.Summarize | backend/main.py:514-515 | total_backups is the list length, and last_backup is absent exactly for an empty list |
| Backups.SystemBackups | backend/main.py:500-518 | an unmounted share reports 0 backups and no last backup; a mounted one reports as many backups as the listing holds, and a last backup exactly when it is non-empty, namely the first listed timestamp, which no listed timestamp exceeds |
| Backups.LatestFirst | backend/main.py:351-352 | in a list sorted newest first, no timestamp exceeds the first one |
| Backups.JoinPath | backend/main.py:330-344 | the path ends in "/" and the name, after the base with its trailing slashes dropped; an empty base gives the name alone |
| Tasks.ParseBackupType | backend/main.py:124-129 | a backup type parses back to its own value, and every other string is refused |
| Tasks.NewTask | backend/main.py:568-576 | a new task is pending, with no completion time and no error |
| Tasks.ScriptFor | backend/main.py:372-379 | a mapped type gets its own script, and an unmapped one gets backup_global.sh |
| Tasks.ScriptChoice | backend/main.py:372-379 | additional and global share a script, and every other pair of types gets different scripts |
| Tasks.OutputLines | backend/main.py:398-404 | the kept output lines are non-empty and already stripped |
| Tasks.StripStable | backend/main.py:402 | stripping twice is stripping once |
| Tasks.ExitCodeMessageReadable | backend/main.py:412 | the exit code can be read back from the "Exit code: N" message |
| Tasks.RunBackupScript | backend/main.py:367-418 | completed exactly when the script exits with 0; otherwise failed with "Exit code: N" or the exception text. completed_at is always set, and output gains the stripped non-empty lines |
| Tasks.StartBackup | backend/main.py:558-580 | 503 when Docker is down or the share is not mounted; otherwise a new pending task filed under backup_<type>_<stamp> |
| Tasks.FinishBackup | backend/main.py:367-418 | finishing one task leaves every other task unchanged |
| Tasks.BackupLifecycle | backend/main.py:558-580 | a started backup is pending, then finishes completed exactly when its script exits with 0, keeping its start time |
| Tasks.GetTaskStatus | backend/main.py:608-613 | not found exactly for an unknown id; otherwise the stored task |
| Tasks.StartedBackupReadBack | backend/main.py:558-580 | reading a freshly started backup task back gives a pending task with that id, type and start time, and every other id reads as before |
| Restore.RestorePath | backend/main.py:432-441 | only the four known components have a path, which lies under the backup base and ends with the timestamp |
| Restore.RestorePathInjective | backend/main.py:432-441 | different components or timestamps never share a backup directory |
| Restore.VolumeNameRoundTrip | backend/main.py:456 | the volume restored from v.tar.gz is v |
| Restore.RestoreVolumes | backend/main.py:455-477 | only a failure to start a subprocess stops the volume loop; a volume whose restore exits non-zero is only logged |
| Restore.RestoreComponent | backend/main.py:430-479 | a component fails only when a volume restore cannot be started; its output opens with its progress line and, when archives were found, closes with its done line |
| Restore.RestoreComponents | backend/main.py:429-481 | the loop finishes exactly when every component's run finishes |
| Restore.RunRestore | backend/main.py:421-487 | completed exactly when every component's run finishes; otherwise failed with an error. completed_at is always set, and earlier output is kept |
| Restore.VolumeFailureIsolated | backend/main.py:469-477 | a volume whose restore fails is reported with a cross mark, and the component still ends with its done line |
| Restore.StartRestore | backend/main.py:583-605 | 503 when Docker is down or the share is not mounted; otherwise a new pending restore task |
| Restore.FinishRestore | backend/main.py:421-487 | the background run finishes the restore task it was given and leaves every other task alone |
| Restore.RestoreLifecycle | backend/main.py:583-605 | a started restore reads back as pending; once its run finishes it reads back finished, with its start time kept, completed_at set, and completed exactly when every component ran |
| ScheduleApi.FirstInvalidType | backend/main.py:770-773 | no backup type is refused exactly when all are valid; otherwise the first invalid one is reported |
| ScheduleApi.MissingTiming | backend/main.py:776-787 | the request passes exactly when every timing field its type requires is given; otherwise 400 |
| ScheduleApi.CreateDict | backend/scheduler.py:45-74 | a new schedule starts active, has not run, and has no next run yet |
| ScheduleApi.CreateEndpoint | backend/main.py:763-793 | 422 outside the request bounds, 503 without a scheduler, 400 for an invalid type, a missing timing field or an unknown schedule type; otherwise the created schedule holds the request's fields |
| ScheduleApi.UnknownTypeRefused | backend/main.py:789-793 | an unknown schedule_type gets 400 with the enum's ValueError message, the value written as Python's repr |
| ScheduleApi.UpdatesMention | backend/main.py:828 | the update names exactly the request fields that are not None |
| ScheduleApi.UpdatesNameOnce | backend/main.py:828 | each request field appears at most once among the updates |
| ScheduleApi.UpdatesRejectEnums | backend/scheduler.py:368-375 | the updates contain a refused value exactly when the status or schedule_type string is unknown |
| ScheduleApi.UpdateAppliesRequest | backend/scheduler.py:361-387 | after a successful update every given request field is stored, and every field the request leaves None is unchanged |
| ScheduleApi.ApplyUpdate | backend/main.py:828-835 | 404 exactly for an unknown id, and 500 exactly for an unknown enum string; a success returns a schedule holding the request |
| ScheduleApi.UpdateEndpoint | backend/main.py:823-835 | 422 and 503 change nothing; otherwise it answers as the registry update does |
| ScheduleApi.UpdateEndpointChecked | backend/main.py:823-835 | a refused update changes nothing; it succeeds exactly for a bounded request to a running scheduler with a stored id and known enum strings; an unknown enum string gets 400 |
| ScheduleApi.UpdateHalfApplied | backend/scheduler.py:368-375 | renaming together with an unknown status answers 500 yet stores the new name |
| ScheduledCallback.CallbackAsWritten | backend/main.py:55-71 | the task is registered first; an unknown type leaves it pending and raises, and a known type runs the script to a finished status |
| ScheduledCallback.FailedScriptRecordedAsSuccess | backend/main.py:55-71 | a MongoDB schedule whose script exits with 1 leaves a failed task, yet the schedule records "success" and one more run |
| ScheduledCallback.RunAsWritten | backend/main.py:55-71 | as written, a scheduled run counts as a success exactly when its backup type names are known (all of them when sequential, else the first), whatever the scripts did |
| ScheduledCallback.CallbackChecked | backend/main.py:55-71 | the task record is the same as written, and the call completes exactly when the task completed |
| ScheduledCallback.RunChecked | backend/main.py:55-71 | with the script's failure passed on, a scheduled run counts as a success exactly when every script it ran exited with 0 |
| CollectionBackup.DataExportIgnored | scripts/backup_collections.py:188-197 | the data export of each collection is carried out, but its outcome does not change the instance result |
| CollectionBackup.CollectAll | scripts/backup_collections.py:188-195 | one entry per listed collection, in order, with 0 entities when the schema export failed |
| CollectionBackup.BackupInstance | scripts/backup_collections.py:160-205 | starts failed with no collections and stays so when the connection fails; no collections gives success with "No collections found"; success exactly when connected and the directory is made; disconnects exactly when it connected; on success every listed collection's data is exported, in order |
| CollectionBackup.RunAll | scripts/backup_collections.py:220-226 | exactly one result per configured instance, in order, each from that instance alone |
| CollectionBackup.RunFullBackup | scripts/backup_collections.py:207-248 | the summary names every configured instance, in order |
| CollectionBackup.TotalIsFound | scripts/backup_collections.py:238-245 | the summary total is the sum of the collections of the instances that were reached |
| CollectionBackup.ResultIsolated | scripts/backup_collections.py:220-226 | an instance's result does not depend on how the other instances fared |
| CollectionBackup.ExitCodeZeroIff | scripts/backup_collections.py:264 | the exit code is 0 exactly when every instance succeeds, and 1 otherwise |
| CollectionBackup.BackupPath | scripts/backup_collections.py:251-259 | the share path when it exists, and otherwise a directory under the home directory |
| CollectionBackup.BackupCollectionData | scripts/backup_collections.py:128-158 | an empty collection succeeds without writing; a file is written only for a non-empty loaded collection |
| CollectionBackup.RunMain | scripts/backup_collections.py:251-264 | the process exits with 0 exactly when every configured instance succeeds |

## Left out

- Next-fire times for cron, interval, daily, weekly and monthly schedules come from APScheduler and croniter. They are the parameter `nextFire`; only the once branch (it returns run_date) is modelled.
- Registering with and unregistering from APScheduler, `start`/`stop`, and the timers that fire schedules are left out: they are foreign calls. A firing is modelled as a call to `Scheduler.ExecuteScheduled`.
- JSON persistence (`_load_schedules`, `_save_schedules`, the summary file and the info files) is left out as file I/O. The last of these appears only as the `writable` flag.
- asyncio concurrency is not modelled. `run_now` and background tasks run at once and in sequence; the `_running_backup` flag is a guard in the state.
- `uuid4`, `datetime.now()` and `duration_seconds` are not modelled as such. Ids and timestamps are parameters, and durations are not kept.
- `get_all_schedules` is left out: it only lists the map's values, and a map has no insertion order.
- `get_running_containers`, `get_backup_detail`, `get_backup_logs`, `mount_qnap`, the presets, health, CORS and static files are not part of this model.
- The endpoint wrappers for get, delete, pause, resume, run-now, history and stats are left out. They only add the 503 and 404 answers around the registry operations.
- Scheduler.GetSchedule: states the lookup for a valid registry only, since the stored id is the key.
- Schedules.FromDict, ScheduleApi.UnknownTypeRefused, Schedules.InvalidEnumMessage: the value's repr escapes the unprintable characters up to U+00FF exactly, but takes every character above U+00FF as printable. Python escapes the unprintable ones among those as `\u` or `\U` sequences, decided by the Unicode database, which is not modelled.
- Scheduler.CreateSchedule, Scheduler.UpdateSchedule: the stored next_run is the value `_calculate_next_run` gives. With the scheduler running (the lifespan always starts it, backend/main.py:87), registering an active schedule overwrites it with APScheduler's next fire time (backend/scheduler.py:321-324, 355-356, 381-382). Registration is a call into APScheduler, so that value is not modelled. The same holds for ScheduleApi.CreateEndpoint and ScheduleApi.ApplyUpdate.
- Scheduler.GetStats: for runs with equal next_run, the program keeps dictionary insertion order, since its sort is stable (backend/scheduler.py:436-444). The registry is a map here, so which of such runs is cut at the fifth place is left free.
- Backups.DateOf: decoding the file is an input. A manifest that cannot be opened or parsed, or whose top level is not an object, arrives as no manifest. JSON numbers are kept as integers, which only matters for their kind. pydantic's other lax coercions (a str field also takes bytes) are not modelled, since `json.load` never yields them.
- Backups.JoinPath: only trailing slashes of the base are dropped. pathlib also collapses repeated inner slashes and `.` parts of BACKUP_BASE, which the model does not normalise.
- ScheduleApi.CreateEndpoint: the pydantic 422 body is reduced to a status and a fixed detail, because the field-by-field error list is framework output.
- `\d` in the `time_of_day` pattern and `str.lower()` are taken as ASCII only, because Unicode digit and case tables are not modelled.
- The task record's extra keys `scheduled` and `schedule_id` are not modelled: nothing reads them.
- Retries are not modelled: the code stores them and never acts on them.
- The logger, and what the schema export writes to disk, are not modelled: only the entity count it reports matters to the result.
- CollectionBackup.BackupInstance: among the calls inside the try block, only creating the instance directory is taken to raise. Listing, schema export, data export and disconnect each catch their own exceptions in the code.
- CollectionBackup.RunMain: the directory creation in `MilvusBackup.__init__` and the fallback `os.makedirs` are taken to succeed, since they are file I/O.
- The `run_command` shell, `docker`, `df`, `tar` and the pymilvus calls are not modelled. Their answers are parameters.

## Findings

| source | as written | input that shows it | evidently intended | confidence | as-written member | corrected member |
|---|---|---|---|---|---|---|
| backend/main.py:55-71 | the scheduler callback awaits `run_backup_script`, which records a non-zero exit in the task and returns normally, so the scheduler sees a completed call | a schedule backing up ["mongodb"] whose script exits with 1: the task ends failed, but the schedule gets last_status "success", run_count + 1 and a "success" history entry | a failed script makes the scheduled run count as failed | medium; not executed | ScheduledCallback.FailedScriptRecordedAsSuccess | ScheduledCallback.RunChecked |
| backend/scheduler.py:368-375 | `update_schedule` converts status and schedule_type strings inside the loop that is already setting fields, and the update endpoint does not catch the ValueError | PUT with {"name": "nightly", "status": "bogus"}: the response is 500, yet the stored schedule is already named "nightly" | an unknown enum value is refused with 400 before anything changes, as the create endpoint does | medium; not executed | ScheduleApi.UpdateHalfApplied | ScheduleApi.UpdateEndpointChecked |
