/** The callback the backend hands to the scheduler (`scheduled_backup_callback`
    in backend/main.py), and what a scheduled execution records when it runs
    through it. The script's run for each backup type is a parameter. */
module ScheduledCallback {
  import opened Wrappers
  import opened Tasks
  import Schedules
  import Scheduler

  /** The first output line of a scheduled task. */
  function StartLine(scheduleId: string): string {
    "\U{1F550} Backup programado iniciado (schedule: " + scheduleId + ")"
  }

  /** `scheduled_<type>_<stamp>`, where `stamp` is the current second. */
  function ScheduledTaskId(backupType: string, stamp: string): string {
    "scheduled_" + backupType + "_" + stamp
  }

  /** The task table after one call, and how the call ended for the scheduler. */
  datatype CallbackRun = CallbackRun(tasks: TaskTable, outcome: Scheduler.CallOutcome)

  /** How a call ends as written: only an unknown backup type raises; the
      script's own failure stays inside the task record. */
  function WrittenOutcome(backupType: string, run: ScriptRun): (r: Scheduler.CallOutcome)
    ensures r.Completed? <==> ParseBackupType(backupType).Some?
    ensures r.Threw? ==> r.message == Schedules.InvalidEnumMessage(backupType, "BackupType")
  {
    if ParseBackupType(backupType).None? then
      Scheduler.Threw(Schedules.InvalidEnumMessage(backupType, "BackupType"))
    else Scheduler.Completed
  }

  /** `scheduled_backup_callback(backup_type, schedule_id)` as written: the
      task is registered before the type is converted, so an unknown type
      leaves it pending; a known type runs the script to its end. */
  function CallbackAsWritten(tasks: TaskTable, backupType: string, scheduleId: string, stamp: string,
                             now: string, run: ScriptRun): (r: CallbackRun)
    ensures var id := ScheduledTaskId(backupType, stamp);
      && r.tasks.Keys == tasks.Keys + {id}
      && (forall k :: k in tasks && k != id ==> r.tasks[k] == tasks[k])
      && (ParseBackupType(backupType).None? ==> r.tasks[id].status == Pending)
      && (ParseBackupType(backupType).Some? ==>
            Finished(r.tasks[id])
            && (r.tasks[id].status == Completed <==> run.Exited? && run.code == 0))
    ensures r.outcome == WrittenOutcome(backupType, run)
  {
    var id := ScheduledTaskId(backupType, stamp);
    var t := NewTask(id, backupType, now, [StartLine(scheduleId)]);
    var registered := tasks[id := t];
    match ParseBackupType(backupType)
    case None => CallbackRun(registered, WrittenOutcome(backupType, run))
    case Some(_) => CallbackRun(registered[id := RunBackupScript(t, run, now)], WrittenOutcome(backupType, run))
  }

  /** The script of each type ended as expected: it exited with 0. */
  predicate ScriptSucceeded(backupType: string, scripts: string -> ScriptRun) {
    ParseBackupType(backupType).Some? && scripts(backupType).Exited? && scripts(backupType).code == 0
  }

  /** The callback as the scheduler sees it, as written. */
  function AsWritten(scripts: string -> ScriptRun): (string, string) -> Scheduler.CallOutcome {
    (backupType: string, scheduleId: string) => WrittenOutcome(backupType, scripts(backupType))
  }

  /** A schedule that backs up MongoDB alone, whose script exits with 1: the
      task ends failed, yet the schedule records a successful run. */
  lemma FailedScriptRecordedAsSuccess(st: Scheduler.BackupScheduler, id: string, scripts: string -> ScriptRun,
                                      entryId: string, now: string,
                                      nextFire: Schedules.Timing -> Option<string>,
                                      tasks: TaskTable, stamp: string)
    requires Scheduler.CanStart(st, id) && st.schedules[id].backupTypes == ["mongodb"]
    requires scripts("mongodb") == Exited([], 1)
    ensures CallbackAsWritten(tasks, "mongodb", id, stamp, now, scripts("mongodb"))
              .tasks[ScheduledTaskId("mongodb", stamp)].status == Failed
    ensures var after := Scheduler.ExecuteScheduled(st, id, Some(AsWritten(scripts)), entryId, now, nextFire).after;
      && after.schedules[id].lastStatus == Some(Scheduler.SuccessStatus)
      && after.schedules[id].runCount == st.schedules[id].runCount + 1
  {
    var cb := AsWritten(scripts);
    assert cb("mongodb", id).Completed?;
    var s := st.schedules[id];
    assert s.backupTypes[0] == "mongodb";
    assert Scheduler.Invoke(s, id, Some(cb)).outcome.Completed?;
  }

  /** The written callback completes exactly for a known backup type. */
  lemma AsWrittenCompletes(scripts: string -> ScriptRun)
    ensures forall bt, sid :: AsWritten(scripts)(bt, sid).Completed? <==> ParseBackupType(bt).Some?
  {
    forall bt, sid ensures AsWritten(scripts)(bt, sid).Completed? <==> ParseBackupType(bt).Some? {
      assert AsWritten(scripts)(bt, sid) == WrittenOutcome(bt, scripts(bt));
    }
  }

  /** A scheduled execution through the callback as written: whether it is
      recorded as a success depends on the backup type names alone, never on
      how the scripts ended. */
  function RunAsWritten(st: Scheduler.BackupScheduler, id: string, scripts: string -> ScriptRun,
                        entryId: string, now: string,
                        nextFire: Schedules.Timing -> Option<string>): (r: Scheduler.Execution)
    ensures !Scheduler.CanStart(st, id) ==> r.after == st
    ensures Scheduler.CanStart(st, id) ==>
      var s := st.schedules[id];
      id in r.after.schedules
      && (r.after.schedules[id].lastStatus == Some(Scheduler.SuccessStatus) <==>
            if s.sequentialExecution then
              forall i :: 0 <= i < |s.backupTypes| ==> ParseBackupType(s.backupTypes[i]).Some?
            else
              |s.backupTypes| > 0 && ParseBackupType(s.backupTypes[0]).Some?)
  {
    AsWrittenCompletes(scripts);
    assert Scheduler.SuccessStatus != Scheduler.FailedStatus;
    Scheduler.ExecuteScheduled(st, id, Some(AsWritten(scripts)), entryId, now, nextFire)
  }

  /** How a call should end: a script that did not exit with 0 fails the
      call with the task's error, as an unknown type does. */
  function CheckedOutcome(backupType: string, run: ScriptRun): (r: Scheduler.CallOutcome)
    ensures r.Completed? <==> ParseBackupType(backupType).Some? && run.Exited? && run.code == 0
    ensures ParseBackupType(backupType).Some? && run.Exited? && run.code != 0 ==>
      r == Scheduler.Threw(ExitCodeMessage(run.code))
  {
    if ParseBackupType(backupType).None? then
      Scheduler.Threw(Schedules.InvalidEnumMessage(backupType, "BackupType"))
    else
      match run
      case Exited(_, code) => if code == 0 then Scheduler.Completed else Scheduler.Threw(ExitCodeMessage(code))
      case Raised(_, message) => Scheduler.Threw(message)
  }

  /** `scheduled_backup_callback` with the script's failure passed on to the
      scheduler; the task record is the same as in the written version. */
  function CallbackChecked(tasks: TaskTable, backupType: string, scheduleId: string, stamp: string,
                           now: string, run: ScriptRun): (r: CallbackRun)
    ensures r.tasks == CallbackAsWritten(tasks, backupType, scheduleId, stamp, now, run).tasks
    ensures var id := ScheduledTaskId(backupType, stamp);
      r.outcome.Completed? <==> ParseBackupType(backupType).Some? && r.tasks[id].status == Completed
  {
    var written := CallbackAsWritten(tasks, backupType, scheduleId, stamp, now, run);
    CallbackRun(written.tasks, CheckedOutcome(backupType, run))
  }

  function Checked(scripts: string -> ScriptRun): (string, string) -> Scheduler.CallOutcome {
    (backupType: string, scheduleId: string) => CheckedOutcome(backupType, scripts(backupType))
  }

  /** The checked callback completes exactly when the type is known and its
      script exited with 0. */
  lemma CheckedCompletes(scripts: string -> ScriptRun)
    ensures forall bt, sid :: Checked(scripts)(bt, sid).Completed? <==> ScriptSucceeded(bt, scripts)
  {
    forall bt, sid ensures Checked(scripts)(bt, sid).Completed? <==> ScriptSucceeded(bt, scripts) {
      assert Checked(scripts)(bt, sid) == CheckedOutcome(bt, scripts(bt));
    }
  }

  /** A scheduled execution through the checked callback: it is recorded as a
      success exactly when the script of every type it backs up exited with 0
      (only the first type when the schedule is not sequential). */
  function RunChecked(st: Scheduler.BackupScheduler, id: string, scripts: string -> ScriptRun,
                      entryId: string, now: string,
                      nextFire: Schedules.Timing -> Option<string>): (r: Scheduler.Execution)
    ensures !Scheduler.CanStart(st, id) ==> r.after == st
    ensures Scheduler.CanStart(st, id) ==>
      var s := st.schedules[id];
      id in r.after.schedules
      && (r.after.schedules[id].lastStatus == Some(Scheduler.SuccessStatus) <==>
            if s.sequentialExecution then
              forall i :: 0 <= i < |s.backupTypes| ==> ScriptSucceeded(s.backupTypes[i], scripts)
            else
              |s.backupTypes| > 0 && ScriptSucceeded(s.backupTypes[0], scripts))
  {
    CheckedCompletes(scripts);
    assert Scheduler.SuccessStatus != Scheduler.FailedStatus;
    Scheduler.ExecuteScheduled(st, id, Some(Checked(scripts)), entryId, now, nextFire)
  }
}
